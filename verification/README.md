# Pulley and the function reducer, verified

This project models three parts of the repository in Dafny and proves properties of every run, every
program and every input of the model.

- **The Pulley bytecode machine** (`pulley/src/interp.rs`): 32 x-registers of 64 bits whose 32-bit
  writes keep the upper half, `fp`, `lr`, `sp` and `pc`, a byte-addressed memory with a bounded
  stack, and the slot for the reason why a run ended. `Machine` gives every handler as a function on
  states, `Interpreter.Vm` is the object that updates its fields in place, and the modules around
  them prove what whole runs keep.
- **The Pulley codec and disassembler** (`encode.rs`, `decode.rs`, `disas.rs`, with the operand types
  of `regs.rs` and `imms.rs` and the numbering of `opcode.rs`): variable-length instructions, branch
  tables that trail `br_table32`, a checked and an unchecked stream, and a listing whose branch
  targets are the addresses that the interpreter goes to.
- **The reducer of crashing functions** (`cranelift/src/bugpoint.rs`): eight mutators with cursors,
  the tables they compact, the blocks they merge, and the loop that keeps a mutation when the
  function still crashes; and the small exponential search of `examples/mpk.rs`.

## Files

| file | modules | subject |
|---|---|---|
| `Words.dfy`, `Ops.dfy` | `Wrappers`, `Lists`, `Words`, `Memory`, `Ops`, `Arith` | machine integers, bytes, memory, operations and their arithmetic |
| `Machine.dfy`, `Vm.dfy` | `Machine`, `Interpreter` | states, handlers, steps and runs; the object that executes them |
| `Frames.dfy`, `Calls.dfy`, `HostCalls.dfy`, `CallExample.dfy` | `SavedFrames`, `ShadowStack`, `HostCalls`, `CallExample` | frame instructions against their expansions; calls and returns over whole runs; calls from the host; a run |
| `BitLaws.dfy`, `ArithLaws.dfy`, `AluLaws.dfy`, `MemoryLaws.dfy`, `ControlLaws.dfy` | the same | what every instruction means, said of its result: bits, congruences, orders, the law of division, the bytes of memory, where control goes |
| `LowHalf.dfy`, `StackLifo.dfy`, `Runs.dfy`, `Wide.dfy`, `Fused.dfy` | `LowHalf`, `StackLifo`, `Runs`, `WideArith`, `Fused` | 32-bit code, the stack as a bounded list, traps and host calls, 128-bit arithmetic, fused instructions |
| `Codec.dfy`, `EncodingLaws.dfy`, `Streams.dfy`, `Program.dfy`, `Opcodes.dfy`, `Unchecked.dfy` | `Operands`, `Codec`, `EncodingLaws`, `Streams`, `Program`, `Opcodes`, `Unchecked`, `Execution` | operands, encoding and decoding, where each bit stands, streams and sinks, the opcode numbering by name, the unchecked stream, programs in memory |
| `Disas.dfy`, `TextLaws.dfy`, `Disassembler.dfy`, `Targets.dfy` | `Disas`, `TextLaws`, `Visitors`, `Targets` | listings, the disassembling and collecting visitors, printed targets |
| `Layouts.dfy`, `Ir.dfy`, `Mutations.dfy`, `Arity.dfy`, `MutationLaws.dfy`, `Entities.dfy`, `Sweeps.dfy`, `Reduce.dfy`, `Minimal.dfy`, `Verifier.dfy`, `ReduceExamples.dfy`, `StopExample.dfy` | the same, and `Reducer`, `Minimality` | layouts, functions, the changes that mutators try, entity tables, whole phases, the reducer, what is left when it stops, what the verifier accepts, and functions that reduction breaks or leaves too early |
| `Semantics.dfy`, `Merging.dfy`, `MergeExample.dfy` | the same | executions and paths, and what merging blocks preserves |
| `Search.dfy` | `Search` | the exponential search |

Two devices recur. Methods of a class are proved equal to a function of the old state, and the
properties are proved of that function, among them laws that say what it computes without naming it. Decoders, oracles and steps are passed as function values, so
that a theorem about programs holds for any table of operations and any stream.

## Where the code differs from what one would expect

- `push_frame_save` checks one combined decrement. It traps exactly when `push_frame; stack_alloc32`
  and the saves would, except when that decrement wraps below address zero past a check that one of
  its parts would have failed. `PushFrameSaveIsExpansion` gives the exact condition.
  `PushFrameSaveWrapExample` is a stack of size zero, whose base is the address 16: the overflow is
  missed for every frame that also allocates.
- `ExtendedOpcode::new` accepts one word past the last extended opcode; decoding it is modelled as
  `Undefined`, which is neither an instruction nor an error. `OpcodeOutcomes` says for which bytes that
  happens, and `UndefinedWord` gives the three bytes of the operation list.
- The register-only `BinaryOperands` and the `g32` addressing modes ignore their top bit when they are
  decoded. Re-encoding gives the same bytes exactly when that bit was clear (`EncodeParse`);
  `IgnoredBitExample` gives two bytes for which it does not.
- References that the usage scan of `RemoveUnusedEntities` does not recognise are not renumbered: the
  function and the signature of a `try_call`, and the stack limit of the function. `UnrecognisedRef`
  says exactly when they still name their entry; `TryCallDangles` and `StackLimitDangles` give functions
  that meet the verifier's rules and in which they are left without one.
- `RemoveBlock` keeps at most one removal in a phase, since its cursor is the block that was removed and
  has no next block (`OneBlockRemoved`).
- `MergeBlocks` takes any last instruction with a single destination for a jump, and removes it. A
  `br_table` with only its default destination, or a `try_call` without handlers, is lost that way
  (`SoleTableIsLost`). `PreservedIff`: merging preserves every execution if and only if what it removes
  is a jump or cannot be reached.
- `MergeBlocks` also merges a block into itself when it is its own sole predecessor. The loop that moves
  the instructions then ends if and only if the block holds nothing but its branch (`MoveLoopEnds`);
  `SelfMergeNeverEnds` gives an unreachable block on which it does not. In the model such a merge is
  `Stuck`, as is one whose arguments do not match the parameters, on which the source panics.
- A pass that has shrunk nothing is the last, on the ground that nothing will ever be found then.
  `NothingLeft` says when that is so, in particular when the pass has changed nothing at all. But kept
  constants, traps and compactions do not count as progress: after the pass of `StopsTooEarly` another
  one would remove an instruction.
- `ReplaceInstWithConst` skips the constants it has made, except vector constants
  (`ReplacementSkipped`).
- The exponential search overflows 32 bits exactly when every 32-bit number of memories can be built
  (`ProbeEngineSize`).

## Model

| member | source | states |
|---|---|---|
| ShadowStack.StepKeeps | pulley/src/interp.rs:1340-1421 | every step that respects the calling convention keeps the invariant between the machine and a shadow stack of activations: return addresses, frames in memory, `fp`, `lr`, `sp`, and the upper registers that an activation without a frame has not changed. Outside a frame a step may write any register but `sp` |
| ShadowStack.RunKeeps | pulley/src/interp.rs:1340-1421 | the invariant holds at every state of every disciplined run, to any depth |
| ShadowStack.CallReturns | pulley/src/interp.rs:1340-1421 | when a disciplined run first comes back to the depth of a call, it is at the instruction after that call, with `sp`, `fp` and every handed-back register as they were: those its frame saved or, without a frame, those from x16 on that it never changed |
| ShadowStack.ReturnRestores | pulley/src/interp.rs:1340-1348 | a return goes to the recorded return address and leaves `sp`, `fp` and the handed-back registers as the activation found them |
| HostCalls.HostCallReturns | pulley/src/interp.rs:110-157 | a call from the host whose disciplined run returns to it: the run has halted with that reason, and `sp`, `fp` and every register that the outermost activation hands back are as before the call |
| ShadowStack.FramePointerChain | pulley/src/interp.rs:1994-2073 | at every state of a disciplined run, following `fp` through memory visits exactly the live frames, at strictly increasing addresses, each with its return address |
| CallExample.SavedRegisterReturns | pulley/src/interp.rs:1340-1421 | a disciplined run exists that calls a function which saves a register in its frame, overwrites it, restores it and returns: it meets all premises of the theorems about calls, and comes back with the register as it was |
| ShadowStack.FramePushedKeeps | pulley/src/interp.rs:1994-2047 | pushing a frame in the innermost activation keeps the invariant, with the saved registers on record |
| ShadowStack.EpilogueKeeps | pulley/src/interp.rs:2049-2073 | popping the matching frame gives back `sp`, `fp`, `lr` and the saved registers, and keeps the invariant |
| ShadowStack.PlainFixesLinks | pulley/src/interp.rs:1332-2821 | no instruction other than calls, returns and frame instructions writes `fp` or `lr` |
| SavedFrames.PushFrameSaveIsExpansion | pulley/src/interp.rs:1994-2047 | from a stack pointer inside the stack, `push_frame_save` traps when its expansion does if and only if the combined decrement does not wrap past a failing check; when neither traps they reach the same state |
| SavedFrames.PushFrameSaveWrapExample | pulley/src/interp.rs:777-812 | an empty stack allocation at the aligned address 16, with `sp` at its top: the expansion overflows, and `push_frame_save` does not trap if and only if it also allocates |
| SavedFrames.ExpansionEffect | pulley/src/interp.rs:1994-2095 | when `push_frame`, `stack_alloc32` and descending 8-byte saves trap, and the state they reach otherwise |
| SavedFrames.FramePushedHolds | pulley/src/interp.rs:2002-2047 | a pushed frame holds the caller's `fp` and `lr` and every saved register, and no byte outside it changed |
| SavedFrames.PopFrameEffect | pulley/src/interp.rs:2066-2073 | `pop_frame` takes `fp` and `lr` from the two words at `fp`, and leaves `sp` above them |
| SavedFrames.PopFrameRestoreUndoes | pulley/src/interp.rs:2002-2064 | `pop_frame_restore` undoes `push_frame_save`: registers, `sp`, `fp` and `lr` are as before, also when `sp` is among the saved registers |
| LowHalf.ExecAlike | pulley/src/interp.rs:1434-1510 | one 32-bit instruction on two machines that agree on the low halves: the same outcome, the same address, low halves that still agree, upper halves untouched |
| LowHalf.RunAlike | pulley/src/interp.rs:371-398 | for every run that executes only 32-bit operations, 32-bit branches and `br_table32`, whatever else the code holds: the two machines stay together, the second executes the same instructions, they trap at the same place with the same kind, and keep their own upper halves |
| StackLifo.PushRefines | pulley/src/interp.rs:1049-1086 | a push traps exactly when the bounded list would overflow; otherwise the machine represents the longer list |
| StackLifo.AllocRefines | pulley/src/interp.rs:2090-2095 | `stack_alloc32` traps exactly when the bounded list would overflow, and leaves the state usable when it traps |
| StackLifo.DecrementTraps | pulley/src/interp.rs:1075-1086 | a checked decrement traps exactly on overflow when it does not exceed `sp`; one that does wraps past the check |
| StackLifo.StepRefines | pulley/src/interp.rs:1049-1095 | each push, pop, allocation and matching free reports what the list operation reports and represents its result |
| StackLifo.RunRefines | pulley/src/interp.rs:1289-1314 | any sequence of mixed-size operations, traps included, reports exactly what the bounded list does, popping in reverse push order, with `sp` inside the stack |
| Runs.ExecSetsDone | pulley/src/interp.rs:974-1010 | a handler sets the done reason exactly when it breaks out of the loop |
| Runs.RunSetsDone | pulley/src/interp.rs:964-972 | over every run: no done reason before a step, and one to take exactly when the run has halted |
| Runs.StepTraps | pulley/src/interp.rs:983-995 | a trap records the first byte of the instruction that trapped, when decoding advances by the width that handlers rewind |
| Runs.RunTraps | pulley/src/interp.rs:983-995 | every trap of every run names the address at which the run stood, and from which its next step trapped |
| Runs.OnlyHostCallsSuspend | pulley/src/interp.rs:997-1005 | only `call_indirect_host` suspends a run |
| Runs.HostedStep | pulley/src/interp.rs:2832-2834 | a host call, resumed by a host that does nothing, is a `nop`; any other step is unchanged |
| Runs.HostedRunIsNopRun | pulley/src/interp.rs:137-157 | suspending at host calls and resuming with an identity host gives the same run as if they were `nop` |
| Interpreter.Vm.constructor | pulley/src/interp.rs:898-917 | a new machine has `fp` and `lr` at the host sentinel, `sp` at the base of its stack plus its length, and no done reason |
| Interpreter.Vm.PushValue | pulley/src/interp.rs:1049-1056 | `push` in place: a trap below the base, else the value at the new `sp` |
| Interpreter.Vm.MoveSp | pulley/src/interp.rs:1075-1086 | `set_sp` in place: a trap below the base of the stack |
| Interpreter.Vm.Pop8 | pulley/src/interp.rs:1059-1071 | `pop` in place: the word at `sp`, and `sp` above it |
| Interpreter.Vm.PushFrame | pulley/src/interp.rs:1994-2000 | `push_frame` in place, with the state it leaves when its second push traps |
| Interpreter.Vm.PopFrame | pulley/src/interp.rs:2066-2073 | `pop_frame` in place |
| Interpreter.Vm.SaveAll | pulley/src/interp.rs:2028-2044 | the saving loop: every register of the set at its descending slot |
| Interpreter.Vm.PushFrameSave | pulley/src/interp.rs:2002-2047 | `push_frame_save` in place, equal to the function whose relation to its expansion is proved |
| Interpreter.Vm.RestoreAll | pulley/src/interp.rs:2049-2064 | the restoring loop: every register of the set from its descending slot, in order |
| Interpreter.Vm.PopFrameRestore | pulley/src/interp.rs:2049-2064 | `pop_frame_restore` in place |
| Interpreter.Vm.CallWith | pulley/src/interp.rs:1350-1409 | `call` to `call4` in place: all arguments are read before `x0` to `x3` are written |
| Interpreter.Vm.BrTable32 | pulley/src/interp.rs:2075-2088 | `br_table32` in place: to the entry of the index, or to the last one when the index is past the table, relative to that entry |
| ControlLaws.TableSelects | pulley/src/interp.rs:2075-2088 | the same of the handler as a function |
| ControlLaws.ControlMeant | pulley/src/interp.rs:1340-1658 | where every other control instruction goes, relative to its own first byte, when it is taken, what it leaves in `lr` and in the argument registers, and that nothing else changes |
| ControlLaws.SystemMeant | pulley/src/interp.rs:2824-2834 | `nop`, `trap`, the host call and the copies of `fp` and `lr`: what each leaves and why it breaks out of the loop |
| ControlLaws.FrameTraps | pulley/src/interp.rs:1075-1086 | a frame or stack instruction traps only for a stack overflow, at its own first byte |
| Interpreter.Vm.WriteResult | pulley/src/interp.rs:1660-2540 | every arithmetic operation that defines one register and cannot trap, in place: a 32-bit result leaves the upper half, and no other register changes |
| Interpreter.Vm.WriteWide | pulley/src/interp.rs:5561-5622 | the 128-bit operations in place: both operands are read before the low half and then the high half is written, whatever registers coincide |
| Interpreter.Vm.DoAlu | pulley/src/interp.rs:2140-2258 | any arithmetic operation in place, equal to the function of which `AluMeant` says what it computes and when it traps |
| AluLaws.AluMeant | pulley/src/interp.rs:1660-2540 | every arithmetic instruction: the trap it raises and exactly when; otherwise the one register or pair that it defines, from which registers, and a law of what that then holds; all other registers, and the upper half for a 32-bit result, stay |
| ArithLaws.BinMeant | pulley/src/interp.rs:1696-2493 | every two-operand operation by a law of its result: sums and products by congruence, logic, shifts and rotates bit by bit, minima and maxima by their order |
| ArithLaws.RotatesUndo | pulley/src/interp.rs:2466-2493 | rotating right undoes rotating left |
| ArithLaws.UnMeant | pulley/src/interp.rs:2362-2540 | every one-operand operation by a law of its result: counts of zeros and ones by the bits, byte swap and complement bit by bit, negation and absolute value |
| ArithLaws.OrdersMeant | pulley/src/interp.rs:1910-1994 | the comparisons are the orders of the signed and of the unsigned values, strict and non-strict |
| Interpreter.Vm.DoMem | pulley/src/interp.rs:2541-2821 | loads and stores of every addressing mode in place, equal to the function of which `OffsetAccess` and `HeapAccess` speak |
| MemoryLaws.OffsetAccess | pulley/src/interp.rs:1212-1242 | a load or store at a register and an offset never traps, or with the null check exactly for zero; it reads or writes exactly the bytes at that address, bit by bit, extended by sign or zero, and changes nothing else |
| MemoryLaws.HeapAccess | pulley/src/interp.rs:1244-1287 | a heap access traps exactly when some byte of it would lie outside the heap, its size included; otherwise all its bytes lie in the heap, and it reads or writes exactly those |
| Interpreter.Vm.Turn | pulley/src/interp.rs:1332-1338 | one turn of the loop: decode, advance, dispatch |
| Interpreter.Vm.RunFor | pulley/src/interp.rs:148-157 | the loop reaches the state of the run as a function, with the same status |
| Interpreter.Vm.CallStart | pulley/src/interp.rs:110-139 | arguments in `x0` on, `lr` at the host sentinel, and the old `lr` returned |
| Interpreter.Vm.CallRun | pulley/src/interp.rs:148-157 | a halted run always has a done reason to take, so taking it cannot fail |
| Interpreter.Vm.CallEnd | pulley/src/interp.rs:169-200 | `lr` is restored and the results are the registers from `x0` on |
| Interpreter.Vm.Call | pulley/src/interp.rs:74-94 | a call that returns to the host leaves `lr` as it was before; one that traps or suspends leaves the state as the run left it |
| WideArith.SignedHighHalf | pulley/src/interp.rs:2892-2906 | the signed high half is the unsigned one less each factor whose partner is negative, modulo 2^64 |
| WideArith.WideMulHalves | pulley/src/interp.rs:5595-5622 | `xwidemul64` leaves `xmul64`'s result in the low register and `xmulhi64`'s in the high one, and changes no other; when both are the same register, it holds the high half |
| WideArith.Add128IsCarryChain | pulley/src/interp.rs:5561-5576 | `xadd128` equals the chain of two 64-bit additions with carry, for every aliasing of registers |
| WideArith.Sub128IsBorrowChain | pulley/src/interp.rs:5578-5593 | `xsub128` equals the chain of two 64-bit subtractions with borrow, for every aliasing of registers |
| WideArith.Sub128UndoesAdd128 | pulley/src/interp.rs:5561-5593 | `xsub128` of the same pair undoes `xadd128` when the sum's registers are distinct and not among the pair |
| WideArith.WrapKeepsHalves | pulley/src/interp.rs:1160-1170 | wrapping to 128 bits changes neither of the halves that are stored |
| Fused.FusedBranch | pulley/src/interp.rs:1452-1658 | every fused compare-and-branch, register and immediate forms and the greater-than forms, jumps exactly when the compare followed by `br_if32` would |
| Fused.ImmediateCompare | pulley/src/interp.rs:1316-1330 | comparing with an immediate is comparing with the word that materialises it |
| Fused.ArgsAreSimultaneous | pulley/src/interp.rs:1356-1409 | reading all arguments and then writing them in order is a simultaneous assignment, for every aliasing |
| Fused.CallAssignsThenCalls | pulley/src/interp.rs:1350-1409 | `call1` to `call4` equal that assignment followed by `call` |
| Arith.DivEval | pulley/src/interp.rs:2140-2258 | division traps exactly for a zero divisor, and for the least value by minus one in signed division; its results are words |
| ArithLaws.DivisionUnsigned | pulley/src/interp.rs:2178-2258 | dividend is divisor times quotient plus remainder, with a remainder below the divisor |
| ArithLaws.DivisionSigned | pulley/src/interp.rs:2140-2235 | the same of the signed values, with a remainder smaller than the divisor that is zero or has the sign of the dividend |
| Operands.UnpackPack | pulley/src/regs.rs:191-228 | every operand is read back as it was packed, and fits its field; `OperandLayout` says where |
| EncodingLaws.OperandLayout | pulley/src/regs.rs:191-476 | where every bit of every operand stands in its bytes: registers and immediates of the packed forms at their shifts, integers in two's complement with the lowest byte first |
| EncodingLaws.OperandWidths | pulley/src/encode.rs:18-249 | how many bytes each kind of operand takes |
| EncodingLaws.BinExample | pulley/README.md:51 | the operand bytes of `xadd32 x0, x0, x1` |
| Operands.PackUnpack | pulley/src/regs.rs:391-476 | packing restores the integer that was unpacked exactly when the ignored top bit was clear |
| Operands.ParseEncode | pulley/src/decode.rs:270-506 | parsing the encoding of any operand gives it back |
| Operands.EncodeParse | pulley/src/encode.rs:18-249 | re-encoding parsed bytes gives the same bytes exactly when no ignored bit was set |
| Operands.IgnoredBitExample | pulley/src/regs.rs:391-476 | two bytes that are read as a triple of registers whose encoding is another |
| Operands.RegsFrom | pulley/src/regs.rs:267-297 | an upper register set iterates over registers from 16 on, in strictly ascending order |
| Operands.RegsAreBits | pulley/src/regs.rs:267-297 | the registers that it iterates over are exactly those whose bits are set |
| Codec.EncodeInstr | pulley/src/encode.rs:277-287 | every encoder emits exactly its width |
| EncodingLaws.InstrLayout | pulley/src/encode.rs:277-330 | the opcode byte, or `ExtendedOp` and the two bytes of the extended opcode with the lower one first, and then each operand at the sum of the widths before it |
| Codec.DecodeOpcode | pulley/src/opcode.rs:35-104 | an opcode that is returned exists in its table, and decoding it consumes one byte, or three for an extended one |
| Codec.OpcodeOutcomes | pulley/src/opcode.rs:35-104 | for every slice and offset, which outcome the opcode bytes have: a regular opcode, an unknown byte, an extended opcode, an unknown word, too few bytes; and the word that is accepted without being an opcode, exactly when it equals the number of extended opcodes |
| Program.UndefinedWord | pulley/src/opcode.rs:89-95 | with the operation list of the repository, the bytes of the word 310 are accepted although it is no opcode, and those of 311 are an error |
| Codec.InstrDecoded | pulley/src/decode.rs:569-610 | what is decoded is an opcode of the table with operands of its fields, and decoding it advances by its encoded width, never past the end |
| Codec.InstrRanged | pulley/src/decode.rs:569-610 | whatever the bytes are read from, the integers of a decoded instruction fit their types, so that it can be encoded |
| Codec.ItemDecoded | pulley/src/decode.rs:569-610 | each step consumes the width of the instruction and its table, at least one byte |
| Codec.ItemsAdvance | pulley/src/decode.rs:525-537 | repeated decoding always advances within the input, so it terminates on every byte string |
| Codec.RoundTrip | pulley/src/decode.rs:525-537 | for every operation table and every list of regular and extended instructions with their branch tables, decoding the concatenated encodings returns that list and consumes the sum of the widths |
| Codec.DecodeInstrAt | pulley/src/decode.rs:705-733 | an instruction found encoded at an offset is decoded there, regular or extended |
| Codec.DecodeTableAt | pulley/src/disas.rs:102-113 | the offsets of a branch table are read back in order |
| Streams.SafeBytecodeStream.Read | pulley/src/decode.rs:151-161 | the remaining bytes are always the original ones from the position on; a read that fails changes nothing and reports that position |
| Streams.SafeBytecodeStream.DecodeOperand | pulley/src/decode.rs:270-506 | a field is read at the position and moves it by its width |
| Streams.SafeBytecodeStream.DecodeOperands | pulley/src/decode.rs:589-599 | the fields of an instruction in order, stopping at the first that fails |
| Streams.SafeBytecodeStream.DecodeOpcodes | pulley/src/decode.rs:582-609 | the opcode byte and, after `ExtendedOp`, the extended opcode |
| Streams.SafeBytecodeStream.DecodeInstruction | pulley/src/decode.rs:569-610 | `decode_one` in place, equal to decoding as a function of the position |
| Streams.Sink.Encode | pulley/src/encode.rs:277-330 | an encoder extends the sink by exactly the encoding of the instruction |
| Streams.Sink.EncodeOffsets | pulley/src/encode.rs:161-170 | branch-table offsets are appended in order |
| Visitors.CollectAll | pulley/src/decode.rs:525-537 | `decode_all` in place: all results in order, or the first error, as the decoding function says |
| Visitors.ReadOffsets | pulley/src/disas.rs:104-112 | the loop over a branch table, with all its turns: those that find no offset consume nothing, and what is read are the offsets that the input holds, in order |
| Program.LowerWidth | pulley/src/interp.rs:1040-1042 | whatever an instruction dispatches to, the handler rewinds by the width that was decoded; `xdiv32_u` by that of the other instruction it names |
| Program.RegularLowers | pulley/src/lib.rs:86-616 | every regular instruction of the operation list has a handler in the model |
| Opcodes.ControlOpcodes | pulley/src/lib.rs:90-244 | for each opcode by its name, its place in the operation list, its fields and the operation it stands for: returns, calls, jumps, and branches on a register |
| Opcodes.BranchOpcodes | pulley/src/lib.rs:132-154 | for each opcode by its name, its place in the operation list, its fields and the operation it stands for: branches that compare two registers |
| Opcodes.BranchSignedOpcodes32 | pulley/src/lib.rs:157-179 | for each opcode by its name, its place in the operation list, its fields and the operation it stands for: branches that compare the low half of a register with a signed immediate |
| Opcodes.BranchUnsignedOpcodes32 | pulley/src/lib.rs:181-195 | for each opcode by its name, its place in the operation list, its fields and the operation it stands for: branches that compare the low half of a register with an unsigned immediate |
| Opcodes.BranchSignedOpcodes64 | pulley/src/lib.rs:198-220 | for each opcode by its name, its place in the operation list, its fields and the operation it stands for: branches that compare a register with a signed immediate |
| Opcodes.BranchUnsignedOpcodes64 | pulley/src/lib.rs:222-236 | for each opcode by its name, its place in the operation list, its fields and the operation it stands for: branches that compare a register with an unsigned immediate |
| Opcodes.MoveOpcodes | pulley/src/lib.rs:247-613 | for each opcode by its name, its place in the operation list, its fields and the operation it stands for: moves, constants, multiply-add and selection |
| Opcodes.SumOpcodes | pulley/src/lib.rs:265-311 | for each opcode by its name, its place in the operation list, its fields and the operation it stands for: addition, subtraction and multiplication |
| Opcodes.UnaryOpcodes | pulley/src/lib.rs:314-591 | for each opcode by its name, its place in the operation list, its fields and the operation it stands for: one operand |
| Opcodes.ShiftOpcodes | pulley/src/lib.rs:329-362 | for each opcode by its name, its place in the operation list, its fields and the operation it stands for: shifts and rotates |
| Opcodes.CompareOpcodes | pulley/src/lib.rs:370-392 | for each opcode by its name, its place in the operation list, its fields and the operation it stands for: comparisons |
| Opcodes.OffsetOpcodes | pulley/src/lib.rs:403-421 | for each opcode by its name, its place in the operation list, its fields and the operation it stands for: loads and stores at a register and an offset |
| Opcodes.NullCheckedOpcodes | pulley/src/lib.rs:424-442 | for each opcode by its name, its place in the operation list, its fields and the operation it stands for: the same, trapping on null |
| Opcodes.HeapOpcodes | pulley/src/lib.rs:445-463 | for each opcode by its name, its place in the operation list, its fields and the operation it stands for: loads and stores in a heap whose bound is in a register |
| Opcodes.HeapInMemoryOpcodes | pulley/src/lib.rs:466-484 | for each opcode by its name, its place in the operation list, its fields and the operation it stands for: the same, with the bound in memory |
| Opcodes.FrameOpcodes | pulley/src/lib.rs:488-506 | for each opcode by its name, its place in the operation list, its fields and the operation it stands for: frames and the stack |
| Opcodes.DivisionOpcodes | pulley/src/lib.rs:527-608 | for each opcode by its name, its place in the operation list, its fields and the operation it stands for: division, and the smaller or larger of two |
| Opcodes.LogicOpcodes | pulley/src/lib.rs:551-586 | for each opcode by its name, its place in the operation list, its fields and the operation it stands for: bitwise logic |
| Opcodes.ExtendedOpcodes | pulley/src/lib.rs:624-1373 | for each extended opcode that the model runs, by its name, its place in the list and the operation it stands for |
| Unchecked.PointerRefinesSlice | pulley/src/decode.rs:235-240 | reading through a pointer into memory that holds the bytecode gives what the checked stream reads |
| Unchecked.InstrRefined | pulley/src/decode.rs:235-240 | the unchecked stream decodes every instruction that the checked one does, at the same offset |
| Unchecked.ProgramRefined | pulley/src/decode.rs:569-610 | on every input that the checked stream decodes as a whole program, the unchecked stream yields the same instructions at the same offsets |
| Unchecked.DecodedYields | pulley/src/decode.rs:525-537 | what `decode_all` returns, none of its tables cut short, is what decoding repeatedly yields, item by item and up to the end |
| Unchecked.ProgramInMemory | pulley/src/decode.rs:234-240 | when `decode_all` over a slice returns a program, none of its tables cut short, the unchecked stream over memory that holds the slice yields that program: the same items at the same offsets, up to the end |
| Execution.FetchWidthsAgree | pulley/src/encode.rs:277-330 | in every program, decoding advances the program counter by the width that handlers rewind |
| Execution.ProgramTraps | pulley/src/interp.rs:983-995 | every trap of every run of every program records the first byte of the instruction that trapped |
| Disas.CoversDumps | pulley/src/disas.rs:365-385 | lines that cover a range dump exactly its bytes |
| Disas.AllLinesCover | pulley/src/disas.rs:361-385 | the dumped ranges of a listing are consecutive and disjoint from the start to where decoding stops |
| Disas.StopsAtEnd | pulley/src/decode.rs:532-534 | decoding repeatedly stops at the end of the input, so that all of it is covered, exactly when all of it decodes |
| Disas.DumpsConsumed | pulley/src/disas.rs:361-385 | the dumped bytes concatenate to exactly the consumed input, also across branch tables that the end of the input cuts short |
| TextLaws.TextMeant | pulley/src/disas.rs:91-100 | the text of an instruction is its mnemonic and then its operands in order, an offset with the address it leads to |
| TextLaws.LineMeant | pulley/src/disas.rs:365-385 | the offset column and the dump are there exactly when switched on, and tell where the bytes stand and what they are |
| TextLaws.EntryMeant | pulley/src/disas.rs:106-112 | an entry shows its target exactly when it could be read and tables are printed |
| Visitors.Disassembler.BeforeVisit | pulley/src/disas.rs:361-363 | the next line starts at the position of the stream |
| Visitors.Disassembler.AfterVisit | pulley/src/disas.rs:365-385 | one line with the bytes from its start to the position, and nothing pending |
| Visitors.Disassembler.NextEntry | pulley/src/disas.rs:106-112 | one turn of the loop over a branch table, also when the input holds no further entry |
| Visitors.Disassembler.Visit | pulley/src/disas.rs:91-113 | the lines of one instruction and its table, the last one still pending |
| Visitors.Disassembler.DecodeOne | pulley/src/decode.rs:569-610 | one instruction writes its lines, or an error writes none |
| Visitors.Disassembler.DisassembleAll | pulley/src/disas.rs:30-36 | the listing of the whole input up to its end or the first error, and success exactly when all of it decodes |
| Targets.OffsetShown | pulley/src/disas.rs:200-211 | the text of a branch or call prints exactly one target, its offset from its own first byte |
| Targets.BranchTarget | pulley/src/interp.rs:1031-1042 | for every branch and call with an offset: the first line that the disassembler writes for it prints one target, which is, relative to where the listing is loaded, the address that the interpreter goes to when it is taken |
| Targets.EntryLine | pulley/src/disas.rs:102-113 | each entry of a branch table has a line of its own after that of its instruction, which prints the entry's target and no other |
| Targets.EntriesAgree | pulley/src/interp.rs:2075-2088 | the disassembler writes as many entries as the interpreter selects from |
| Targets.OnlyTablesTrail | pulley/src/disas.rs:106-112 | entries follow no other instruction |
| Targets.TableTarget | pulley/src/interp.rs:2075-2088 | for every `br_table32` whose entries are all there: the line of the entry with the register's index, or of the last one when the index is past the table, prints one target, which is the address that the interpreter goes to |
| Targets.ListedTarget | pulley/src/disas.rs:30-36 | the same over the whole listing of a slice that stands in memory: for every branch and call with an offset that the disassembler comes to, the instruction's own line prints exactly one target, and the interpreter goes there when the branch is taken, and to the next instruction otherwise |
| Targets.ListedTable | pulley/src/disas.rs:30-36 | and for every `br_table32`, the line of the entry that the register selects prints exactly one target, and the interpreter goes there |
| Search.ExponentialSearch.constructor | examples/mpk.rs:153-159 | the search starts growing, from zero and one |
| Search.ExponentialSearch.Record | examples/mpk.rs:163-178 | `record` in place: grow, halve upwards or halve downwards, and fail exactly on overflow |
| Search.BuildKeeps | examples/mpk.rs:163-178 | every build keeps the bounds around the ceiling and the count of builds, or overflows at the largest 32-bit number |
| Search.InvBounds | examples/mpk.rs:179-181 | at most 2*floor(log2(t+1))+2 builds throughout, and the search ends only at the ceiling |
| Search.ProbeEngineSize | examples/mpk.rs:93-113 | for every oracle with a ceiling t below 2^32-1 the result is t slots with the bytes measured at t (0 for t = 0), after few builds; overflow exactly when t reaches 2^32-1 |
| Layouts.AdvanceAt | cranelift/src/bugpoint.rs:798-814 | in a well-formed layout the cursor moves to the next position, and stops at the last |
| Layouts.DropInstKeeps | cranelift/src/bugpoint.rs:133-145 | removing an instruction, and its block when that leaves it empty, keeps the layout well-formed and the positions after it in place |
| Layouts.MoveKeeps | cranelift/src/bugpoint.rs:309-331 | moving an instruction to the entry block keeps the layout well-formed and the positions after it in place |
| Mutations.InsertedKeeps | cranelift/src/bugpoint.rs:774-796 | a new instruction before the cursor keeps the function sound and the cursor in place |
| Mutations.ReplacementSkipped | cranelift/src/bugpoint.rs:178-204 | what replaces a definition is skipped by the same mutator exactly when the value is not a vector |
| Mutations.MergedKeeps | cranelift/src/bugpoint.rs:690-767 | merging a block into its sole predecessor leaves a sound function that still holds the predecessor, when that is another block; so does merging a block into itself that holds nothing but its branch |
| Mutations.MoveLoopEnds | cranelift/src/bugpoint.rs:746-753 | the loop that moves the instructions of a block to its predecessor ends if and only if the predecessor is another block or the branch was all that the block held |
| ReduceExamples.SelfMergeNeverEnds | cranelift/src/bugpoint.rs:701-753 | a function that meets the verifier's rules on terminators, destinations and references, with an unreachable block that is its own sole predecessor: the guards let the merge through, and after any number of moves the block still holds an instruction |
| Arity.ReplacedInStep | cranelift/src/bugpoint.rs:401-446 | after a block parameter has been replaced, branches to every block still pass one value per parameter |
| Arity.PredsDistinct | cranelift/src/bugpoint.rs:420-430 | no predecessor is listed twice, so no branch loses two arguments |
| Reducer.Mutator.constructor | cranelift/src/bugpoint.rs:113-122 | a cursor starts at the first instruction of the entry block, with all positions before it |
| Reducer.Mutator.NextInstRetPrev | cranelift/src/bugpoint.rs:798-814 | the cursor moves past one position and returns it, none is skipped, the `expect` cannot fail, and it ends exactly at the last |
| Reducer.Mutator.RemoveInstStep | cranelift/src/bugpoint.rs:133-145 | the function without the visited instruction; sound, and the cursor stands in it and in the old one |
| Reducer.Mutator.ReplaceConstStep | cranelift/src/bugpoint.rs:174-239 | skipped exactly when there is nothing to replace, else one constant per result in place of the instruction; sound, with the cursor in both functions |
| Reducer.Mutator.ReplaceTrapStep | cranelift/src/bugpoint.rs:268-281 | a trap in place of the visited instruction unless it is one |
| MutationLaws.TrappedMeans | cranelift/src/bugpoint.rs:268-281 | only that instruction changes: it traps, reads nothing and leads nowhere |
| Reducer.Mutator.MoveInstStep | cranelift/src/bugpoint.rs:309-331 | the visited instruction before the last of the entry block, unless it is there or ends its block; sound, with the cursor in both functions |
| MutationLaws.MovedMeans | cranelift/src/bugpoint.rs:309-331 | block by block: the instruction is gone from its own, stands before the last one of the entry block, and nothing else moves |
| MutationLaws.DroppedMeans | cranelift/src/bugpoint.rs:133-145 | removing an instruction leaves all others where they stand, in their order, and no block empty |
| MutationLaws.BlockRemovedMeans | cranelift/src/bugpoint.rs:357-370 | removing a block leaves all others as they are, in their order |
| Sweeps.TriedStatus | cranelift/src/bugpoint.rs:133-331 | what each instruction mutator passes over, and which of its changes count as progress that calls for another pass |
| Reducer.Mutator.RemoveBlockStep | cranelift/src/bugpoint.rs:357-370 | the function without the next block, or no more when there is none; when it is kept, nothing is left to try |
| Reducer.Mutator.ReplaceParamStep | cranelift/src/bugpoint.rs:401-446 | parameters are tried block by block, in each from the last to the first, and no more exactly when none is left; what is left is the same whether or not a replacement is kept |
| Reducer.Mutator.RemoveEntitiesStep | cranelift/src/bugpoint.rs:468-663 | the four tables in order, each compacted with only references changed; no more after the last or at derived global values |
| Reducer.Mutator.MergeStep | cranelift/src/bugpoint.rs:690-767 | no more exactly after the last block; a step is skipped exactly when the next block does not have a sole predecessor with a single destination, and is that block merged into its predecessor otherwise, unless the merge cannot be carried out |
| Reducer.Mutator.DidCrash | cranelift/src/bugpoint.rs:769-771 | after a kept merge the cursor stands at the predecessor; in any other phase it stays |
| Reducer.Mutator.Mutate | cranelift/src/bugpoint.rs:97-105 | whichever the mutator: the cursor is valid in the old function and in the mutated one, which is sound and a change of the old one; up to the replacement of parameters, what is tried is the next of the targets that are left; only a merge can get stuck |
| Sweeps.OneBlockRemoved | cranelift/src/bugpoint.rs:357-370 | the phase that removes blocks leaves the function without the first block, of those the iteration cap lets it try, without which it still crashes, or unchanged when there is none |
| Sweeps.ParamsStillLeft | cranelift/src/bugpoint.rs:401-446 | replacing a parameter leaves to be tried exactly the parameters before it and those of the blocks after it |
| Sweeps.AllParamsTried | cranelift/src/bugpoint.rs:401-446 | the targets of that phase are all parameters of all blocks, and nothing else |
| Reducer.ReplaceByConsts | cranelift/src/bugpoint.rs:206-224 | the loop over the results, equal to inserting the constants one by one |
| MutationLaws.ByConstsMeans | cranelift/src/bugpoint.rs:206-224 | each result is then defined, by an instruction of its own, as the constant of its type, a 128-bit one by extending a 64-bit one; all other instructions stay |
| Reducer.ReplaceParam | cranelift/src/bugpoint.rs:407-435 | a constant at the start of the block, one parameter less, and its argument gone from every branch to the block, as the following rows say of the result |
| MutationLaws.ParamsFollow | cranelift/src/bugpoint.rs:407-411 | the parameters that are left are the others in their order; other blocks keep theirs |
| MutationLaws.ArgsFollow | cranelift/src/bugpoint.rs:420-430 | every branch to the block passes for each parameter that is left what it passed before; its other destinations and operands stay |
| MutationLaws.OthersStay | cranelift/src/bugpoint.rs:420-430 | an instruction that is no predecessor of the block stays as it was |
| MutationLaws.ParamIsConst | cranelift/src/bugpoint.rs:413-415 | the removed parameter is defined as the constant of its type, before all else in the block |
| MutationLaws.SignatureFollows | cranelift/src/bugpoint.rs:432-435 | the signature loses the same parameter exactly when the block is the entry block |
| Reducer.EmptyBlock | cranelift/src/bugpoint.rs:360-363 | removing last instructions until none is left empties the block and touches no other |
| Reducer.JoinInto | cranelift/src/bugpoint.rs:746-756 | moving instructions one by one, after the branch is gone, appends the code of the block to its predecessor; no result exactly when no number of moves empties the block |
| MutationLaws.MergedMeans | cranelift/src/bugpoint.rs:725-763 | a merge block by block: the code of the merged block takes the place of the branch, the block and its parameters are gone, and all else stays |
| Reducer.RunPhase | cranelift/src/bugpoint.rs:864-929 | for every oracle: every function held is sound, crashes and is a change of the one before; an instruction cursor visits the positions that the phase started with in order and once each, without the last, up to the iteration cap; the outcome, with whether it shrank, is what the phase makes of the function that it started with: for instructions, blocks and parameters by trying its targets one after the other and keeping what still crashes, for tables by compacting one after the other, for merges by going from block to block and back to the predecessor of a kept merge; only the merge phase can get stuck, at a function in which a merge cannot be carried out |
| Reducer.RunPass | cranelift/src/bugpoint.rs:860-930 | the same over all eight phases, none left out: each starts with what the one before left, and another pass is called for exactly when one of them shrank the function |
| Reducer.RunPasses | cranelift/src/bugpoint.rs:860-949 | pass after pass, each from what the one before left, ended exactly by one that calls for no other, gets stuck, or is the hundredth |
| Reducer.TryResolveAliases | cranelift/src/bugpoint.rs:826-834 | the function without aliases if that still crashes, and the old one otherwise |
| Reducer.TryRemoveSrclocs | cranelift/src/bugpoint.rs:836-843 | the same for source locations |
| Reducer.Prepare | cranelift/src/bugpoint.rs:852-853 | both in that order, and every function held is sound, crashes and is a change of the one before |
| Reducer.Reduce | cranelift/src/bugpoint.rs:845-960 | for every oracle: no result exactly when the function does not crash; otherwise every function ever held is sound, crashes and is a change of the one before, so the final check cannot fail; the result is what resolving aliases makes of what the passes make of the prepared function; the only other end is at a function in which a merge cannot be carried out |
| Minimality.SweepShrinks | cranelift/src/bugpoint.rs:885-929 | of removing instructions, moving them, removing blocks and replacing parameters: the phase leaves the function as it is if and only if no target that the iteration cap lets it try, tried on that very function, still crashes; otherwise it shrinks it |
| Minimality.MergesShrink | cranelift/src/bugpoint.rs:690-772 | the same of merging: unchanged if and only if every block that could be merged no longer crashes when it is; otherwise it shrinks the function or gets stuck |
| Minimality.LastPass | cranelift/src/bugpoint.rs:944-948 | what a pass that calls for no other has found: no instruction of its function can be removed; after the constants and traps that were kept none can be moved, and no block removed or parameter replaced; after compaction no block can be merged |
| Minimality.NothingLeft | cranelift/src/bugpoint.rs:944-948 | if its compactions were not kept, no shrinking change is left for another pass if and only if no instruction can be removed; and none is left when the pass has changed nothing |
| Minimality.MinimalMeans | cranelift/src/bugpoint.rs:860-948 | what that says of a function within the iteration cap: no instruction but the last, no block but the entry block and no parameter can go, and no block be merged, with the crash kept; if and only if |
| StopExample.StopsTooEarly | cranelift/src/bugpoint.rs:944-948 | a function and an oracle for which a pass keeps two constants and calls for no other, although another one would remove an instruction |
| MutationLaws.AliasesResolved | cranelift/src/bugpoint.rs:828-834 | resolving all aliases changes no execution: the same instructions see the same values |
| Reducer.MergeToEnd | cranelift/src/bugpoint.rs:690-772 | the merge phase ends without the iteration cap, whatever the oracle says, since the pair (block count, blocks after the cursor) decreases; or at a merge that cannot be carried out |
| Reducer.MergedShorter | cranelift/src/bugpoint.rs:746-756 | a merge leaves fewer blocks |
| Entities.RenumberUsers | cranelift/src/bugpoint.rs:493-507 | the inner loop gives every user of an entry its new number and nothing else a different one |
| Entities.RemoveUnused | cranelift/src/bugpoint.rs:468-663 | compaction of one table: the used entries in their old order, users that follow them, and nothing else of the function changed |
| Entities.UsersResolveSame | cranelift/src/bugpoint.rs:468-663 | every user that the scan recognises still refers to the same data |
| Entities.SurvivorsAreUsed | cranelift/src/bugpoint.rs:468-663 | nothing unused remains: every surviving entry has a recognised user |
| Entities.SurvivorsInOrder | cranelift/src/bugpoint.rs:490-512 | the surviving entries are in their old order |
| Entities.UnrecognisedRef | cranelift/src/bugpoint.rs:475-486 | a reference that the scan does not recognise, in a `try_call` or as the stack limit, is unchanged in the compacted function, and so is the rest of its instruction; it is still the index of its entry, and finds the same data, exactly when every entry up to it has a recognised user |
| Entities.EveryReference | cranelift/src/bugpoint.rs:471-640 | every entity number among the operands of an opcode is recognised, except in the two forms of `try_call` |
| Entities.UsersFound | cranelift/src/bugpoint.rs:471-640 | the scan finds exactly the instructions in the layout with a recognised reference, and for signatures every external function |
| ReduceExamples.TryCallDangles | cranelift/src/bugpoint.rs:475-510 | a function with two imports that meets those rules: compacting drops the first, renumbers the call of the second, and leaves a `try_call` of the second with an index past the table |
| ReduceExamples.StackLimitDangles | cranelift/src/bugpoint.rs:611-658 | a function whose only global value is its stack limit: compacting empties the table and leaves the stack limit |
| Merging.PassedIsNoParam | cranelift/src/bugpoint.rs:735-744 | no value passed to a reachable block is one of its own parameters, so aliasing makes no cycle |
| Merging.AvoidBlock | cranelift/src/bugpoint.rs:735-744 | the definition of a passed value can be reached without going through the block |
| Merging.UseIntact | cranelift/src/bugpoint.rs:735-744 | wherever a parameter is used, the block was passed and the value it was given has not been redefined since |
| Merging.ParamsResolve | cranelift/src/bugpoint.rs:735-744 | after aliasing, a value that stood for a parameter stands for what was passed for it |
| Merging.ValueSame | cranelift/src/bugpoint.rs:735-744 | every value that an instruction reads is the same before and after the merge |
| Merging.CodeOfOthers | cranelift/src/bugpoint.rs:746-756 | every other block holds its own code, with the code of the merged block in place of the jump |
| Merging.RunForward | cranelift/src/bugpoint.rs:690-767 | every state of an execution has its counterpart after the merge, as far along or one jump behind |
| Merging.RunBackward | cranelift/src/bugpoint.rs:690-767 | and the other way round |
| Merging.MergePreserves | cranelift/src/bugpoint.rs:690-767 | when what is removed is a jump or cannot be reached: for any meaning of the instructions and any initial values, merging preserves every execution's sequence of non-jump instructions and the values they see, in both directions |
| Merging.PreservedIff | cranelift/src/bugpoint.rs:701-767 | for every block with a sole, different predecessor with a single destination: merging preserves every execution under every meaning if and only if the removed instruction is a jump or cannot be reached |
| MergeExample.MergeIsPossible | cranelift/src/bugpoint.rs:701-744 | a concrete function with a passed parameter, and any opcode as the branch, meets all premises of the merge theorems |
| MergeExample.SoleTableIsLost | cranelift/src/bugpoint.rs:713-746 | with a `br_table` as that branch the merge does not preserve every execution, and with a jump it does |
| MergeExample.TwoBlocksAccepted | cranelift/codegen/src/verifier/mod.rs:474-492 | both functions meet the verifier's rules on terminators, destinations and references, so that the reducer can come to hold them |

## Left out

- Floating-point registers and handlers, vector registers and handlers, and the big-endian loads and
  stores: bytes of these instructions decode, but running them is `Stuck` in the model.
- Interpreter.Vm.Call: arguments and results beyond those passed in x-registers are not modelled; the
  source leaves stack slots open, and at most 16 arguments and 15 results are allowed.
- Interpreter.Vm.RunFor: a run is given a number of turns, since runs need not end; the theorems about
  runs hold for every such number.
- Interpreter.Vm.DoAlu: the operations are those of the x-registers; the profiling counter and the
  configuration without vector support are not modelled.
- ShadowStack.CallReturns: the calling convention is a premise, namely that bodies do not write live
  frames, that an epilogue matches its prologue, and that the stack lies above the largest single
  decrement; runs that break it are not covered.
- MemoryLaws.HeapAccess: for offsets and sizes that the heap could hold, which the instruction demands;
  beyond them the subtraction of the bounds check wraps.
- StackLifo.RunRefines: no decrement may exceed the base address of the stack; `DecrementTraps` says
  what happens otherwise.
- Pointer provenance, alignment and the layout of the register unions: addresses are 64-bit integers
  and memory is a map of bytes. Native byte order is a parameter, fixed to little-endian only where an
  instruction with a fixed order is compared with one without.
- Disas.DumpsConsumed: lines are lists of tokens with their byte ranges; spacing, digits and mnemonic
  spelling of the text are not modelled, and the offset and hexdump columns must be switched on.
- Targets.ListedTable: for tables whose entries the input holds in full, listed with the switch that
  prints them; instructions that the disassembler comes to by decoding from the start.
- Unchecked.ProgramInMemory: for programs whose last branch table is not cut short, since the unchecked
  stream has no end of input.
- Codec.RoundTrip: the encoder writes `br_table32` without its entries, which the caller emits; items
  hold both.
- The operation list's documentation, `SequencedVisitor`, the `operands` decoder module, tail-call and
  match dispatch loops, and `Debug` and `Display` output.
- Reducer.Reduce: the compiler and its verifier are the oracle, and a function that crashes is taken to
  have a layout without empty blocks. Messages, the progress bar and panics inside the compiler are left
  out.
- Reducer.Mutator.MergeStep: instructions with special block-call arguments, such as those of `try_call`, are
  ordinary destinations here.
- Merging.PreservedIff: the predecessor is another block, and passes one value per parameter.
- Entities.UsersResolveSame: a recognised user whose reference is outside its table is left as it is.
- Search.ProbeEngineSize: building an engine is an oracle that succeeds up to a ceiling; reading mapped
  bytes, printing and comparing pools are left out.
- The rest of the repository: the compiler, the runtime, the command line and the other examples.
