# lwvm / jitterbug in Dafny

lwvm is a small intermediate representation (IR) with an interpreter, built for dynamic binary translation. jitterbug is an earlier version of the same design. This project models the core of both and proves properties of the model:

- **Typed integer immediates** (`Types`). `IntImmed` and `IntType` are modelled as values, together with:
  - zero- and sign-extending flattening;
  - `cast`, which truncates, zero-extends, sign-extends, or tests for nonzero when the target is Bool;
  - `upcast` and `upcast_zip`, which bring two operands to their common width.
- **Operations and blocks** (`Ops`, `Block`, `JitBlock`).
  - The lwvm block builder is a class whose `ops` sequence the methods extend in place. `FinishBranch` and `FinishExit` append the single terminator.
  - The two jitterbug block types are also classes. They append any operation, terminators included, anywhere.
- **Translation units** (`Unit`).
  - A unit has the interpreter's indexed shape: a label-to-index map, a block vector and an entry index. It follows the jitterbug rules for adding blocks and setting the entry.
  - A map view (`Unit.Blocks`) relates the indexed shape to jitterbug's label-keyed `BTreeMap`.
  - The label-keyed `UnsafeTranslationUnit` is modelled as well.
- **Register widths and offsets** (`RegMap`, `HostState`). The host state is a sequence of register slots, each with a width and a value that fits it. A read zero-extends the value; a write truncates it to the slot's width.
- **The reference interpreter** (`Interpret`) and **the earlier interpreter** (`JitInterpret`).
  - In each, functions specify one operation, one block and a whole run.
  - Methods update an `array<Register>` in place and are proved against those functions.
  - A Rust panic is the `Panic` outcome.
  - The reference interpreter runs `op_sub` as written, operand swap included. The corrected subtraction is a separate member (`Interpret.SubEffectOrdered`, see Findings).
  - `InterpretersAgree` shows where the two interpreters coincide and where they differ.
- **Execution contexts** (`Ctx`, `JitContext`).
  - `Ctx` holds the backend that compiles a unit and the compiled unit, which keeps a weak handle to its executable. Neither backend keeps the executable alive, so every `execute` compiles the unit again.
  - `JitContext` is the earlier 256-entry register table.

The source's `execute` loops until an `Exit`, which may never come. The model's runs therefore take a `fuel` bound on the number of blocks run. Running out is a distinct outcome, and more fuel never changes a run that ended (`InterpretProps.MoreFuelSameOutcome`).

## Model

| member | source | states |
|---|---|---|
| Types.AsI64 | jitterbug/src/interpret/mod.rs:57 | `x as i64` reads the same 64 bits in two's complement: equal to `x` modulo 2^64, negative exactly when the top bit is set |
| Types.AsU64 | jitterbug/src/interpret/mod.rs:57 | `x as u64` is the inverse of `AsI64` |
| Types.IntType.FromInt | lwvm/src/ir/types.rs:12-38 | `from_uN` / `from_uN_signed` produce a value of the target type; Bool means nonzero, every other type keeps `v` modulo 2^width |
| Types.IntType.Modulus | lwvm/src/ir/types.rs:3-10 | the number of values of a type tag is one of 2, 2^8, 2^16, 2^32 or 2^64, and it is 2 exactly for the 1-bit Bool |
| Types.ModulusIsPow2 | lwvm/src/ir/types.rs:3-10 | each type tag has exactly 2^width values |
| Types.IntImmed.MaybeBool | lwvm/src/ir/types.rs:88 | `maybe_bool` is `Some` exactly for the Bool variant |
| Types.IntImmed.MaybeU8 | lwvm/src/ir/types.rs:89 | `maybe_u8` is `Some` exactly for the I8 variant |
| Types.IntImmed.MaybeU16 | lwvm/src/ir/types.rs:90 | `maybe_u16` is `Some` exactly for the I16 variant |
| Types.IntImmed.MaybeU32 | lwvm/src/ir/types.rs:91 | `maybe_u32` is `Some` exactly for the I32 variant |
| Types.IntImmed.MaybeU64 | lwvm/src/ir/types.rs:92 | `maybe_u64` is `Some` exactly for the I64 variant |
| Types.IntImmed.GetType | lwvm/src/ir/types.rs:176-184 | `get_type` names the value's own variant |
| Types.IntImmed.Size | lwvm/src/ir/types.rs:94-102 | `size` is the bit width of the value's type |
| Types.IntImmed.ToU64 | lwvm/src/ir/types.rs:104-112 | `to_u64` zero-extends: the result is below 2^width, and Bool gives 0 or 1 |
| Types.IntImmed.ToI64 | lwvm/src/ir/types.rs:114-122 | `to_i64` sign-extends: the result lies in the signed range of the width and agrees with `to_u64` modulo 2^width; Bool gives 0 or 1 |
| Types.IntImmed.Cast | lwvm/src/ir/types.rs:124-142 | `cast` always yields a value of the requested type |
| Types.IntImmed.Upcast | lwvm/src/ir/types.rs:144-162 | both results share one type, the wider input's; equal widths come back unchanged; otherwise the result is (wider input, narrower input cast to the wider type), so a narrower `first` ends up second |
| Types.IntImmed.UpcastZip | lwvm/src/ir/types.rs:164-174 | the pair is zipped under its common variant; every `unwrap` in it succeeds |
| Types.SizeTable | lwvm/src/ir/types.rs:94-102 | `size` is 1/8/16/32/64 for Bool/I8/I16/I32/I64, and `get_type` names the same variant |
| Types.CastToOwnTypeIsIdentity | lwvm/src/ir/types.rs:124-142 | casting to the value's own type is the identity, signed or not |
| Types.CastToBoolIsNonzero | lwvm/src/ir/types.rs:14-21 | casting to Bool tests the whole value for nonzero, not its low bit |
| Types.CastNarrowKeepsLowBits | lwvm/src/ir/types.rs:124-142 | narrowing to a non-Bool type keeps the low bits, with the same result whether signed or not |
| Types.SignedAgreesModNarrower | lwvm/src/ir/types.rs:114-122 | the sign- and zero-extended readings agree modulo every narrower width |
| Types.CastWidenUnsignedZeroExtends | lwvm/src/ir/types.rs:133-140 | widening unsigned zero-extends |
| Types.CastWidenSignedSignExtends | lwvm/src/ir/types.rs:125-132 | widening signed keeps the signed reading, i.e. sign-extends |
| Types.CastRoundTrip | lwvm/src/ir/types.rs:124-142 | widening and then narrowing back, with the same signedness, restores the value |
| Types.ToU64Determines | lwvm/src/ir/types.rs:104-112 | the type and the zero-extended value together determine an immediate |
| Types.UpcastSwapsNarrowFirst | lwvm/src/ir/types.rs:155-161 | with a narrower `first`, `upcast` returns `(second, cast(first))` |
| Types.UpcastWidthCommutes | lwvm/src/ir/types.rs:147-162 | the common type does not depend on the operand order |
| Types.SameSizeSameType | lwvm/src/ir/types.rs:94-102 | the size identifies the variant |
| Ops.ValidateIff | lwvm/src/block.rs:7-17 | `validate` holds exactly of non-empty streams whose last operation is `Branch` or `Exit` |
| Ops.TerminatedStreamShape | lwvm/src/block.rs:198-215 | a terminator-free stream plus one terminator validates and has exactly one terminator, at its end |
| Block.BasicBlockBuilder.constructor | lwvm/src/block.rs:31-35 | `builder()` starts with no operations |
| Block.BasicBlockBuilder.Add | lwvm/src/block.rs:127-144 | appends exactly `Add(dest, arg1, arg2, signed)` and keeps the builder free of terminators |
| Block.BasicBlockBuilder.Sub | lwvm/src/block.rs:127-144 | appends exactly `Sub(dest, arg1, arg2, signed)` |
| Block.BasicBlockBuilder.Mult | lwvm/src/block.rs:127-144 | appends exactly `Mult(dest, arg1, arg2, signed)` |
| Block.BasicBlockBuilder.Div | lwvm/src/block.rs:127-144 | appends exactly `Div(dest, arg1, arg2, signed)` |
| Block.BasicBlockBuilder.Rem | lwvm/src/block.rs:127-144 | appends exactly `Rem(dest, arg1, arg2, signed)` |
| Block.BasicBlockBuilder.ShiftLeft | lwvm/src/block.rs:93-108 | appends exactly `LShift(dest, arg1, arg2)` |
| Block.BasicBlockBuilder.ShiftRight | lwvm/src/block.rs:127-144 | appends exactly `RShift(dest, arg1, arg2, signed)` |
| Block.BasicBlockBuilder.SignExtend | lwvm/src/block.rs:76-91 | appends exactly `SignExtend(dest, arg1, ty)` |
| Block.BasicBlockBuilder.ZeroExtend | lwvm/src/block.rs:76-91 | appends exactly `ZeroExtend(dest, arg1, ty)` |
| Block.BasicBlockBuilder.And | lwvm/src/block.rs:93-108 | appends exactly `And(dest, arg1, arg2)` |
| Block.BasicBlockBuilder.Or | lwvm/src/block.rs:93-108 | appends exactly `Or(dest, arg1, arg2)` |
| Block.BasicBlockBuilder.Xor | lwvm/src/block.rs:93-108 | appends exactly `Xor(dest, arg1, arg2)` |
| Block.BasicBlockBuilder.Not | lwvm/src/block.rs:44-57 | appends exactly `Not(dest, arg1)` |
| Block.BasicBlockBuilder.GuestMemRead | lwvm/src/block.rs:59-74 | appends exactly `GuestReadMem(dest, arg1, width)` |
| Block.BasicBlockBuilder.GuestMemWrite | lwvm/src/block.rs:110-125 | appends exactly `GuestWriteMem(arg1, arg2, width)` |
| Block.BasicBlockBuilder.IntCmp | lwvm/src/block.rs:168-181 | appends exactly `ICmp(dest, cmp, arg1, arg2)` |
| Block.BasicBlockBuilder.Select | lwvm/src/block.rs:183-196 | appends exactly `Select(cond, dest, arg1, arg2)` |
| Block.BasicBlockBuilder.FinishBranch | lwvm/src/block.rs:198-210 | the block is the builder's operations plus `Branch(cond, taken, not_taken)`; it validates, holds one terminator, and the builder is consumed |
| Block.BasicBlockBuilder.FinishExit | lwvm/src/block.rs:212-215 | the block is the builder's operations plus `Exit(code)`; it validates, holds one terminator, and the builder is consumed |
| Block.BasicBlockBuilder.HostMemRead | lwvm/src/block.rs:217-226 | appends exactly `HostReadMem(dest, arg1)` |
| Block.BasicBlockBuilder.HostMemWrite | lwvm/src/block.rs:228-237 | appends exactly `HostWriteMem(arg1, arg2)` |
| Block.FinishedBlockIsTerminated | lwvm/src/block.rs:198-215 | whatever builder calls came before, a finished block validates and its only terminator is its last operation |
| JitBlock.BasicBlock.constructor | jitterbug/src/block.rs:19-22 | a default block has no operations |
| JitBlock.BasicBlock.Add | jitterbug/src/block.rs:94-111 | appends exactly `Add(dest, arg1, arg2, signed)` |
| JitBlock.BasicBlock.Sub | jitterbug/src/block.rs:94-111 | appends exactly `Sub(dest, arg1, arg2, signed)` |
| JitBlock.BasicBlock.Mult | jitterbug/src/block.rs:94-111 | appends exactly `Mult(dest, arg1, arg2, signed)` |
| JitBlock.BasicBlock.Div | jitterbug/src/block.rs:94-111 | appends exactly `Div(dest, arg1, arg2, signed)` |
| JitBlock.BasicBlock.Rem | jitterbug/src/block.rs:94-111 | appends exactly `Rem(dest, arg1, arg2, signed)` |
| JitBlock.BasicBlock.ShiftLeft | jitterbug/src/block.rs:62-77 | appends exactly `LShift(dest, arg1, arg2)` |
| JitBlock.BasicBlock.ShiftRight | jitterbug/src/block.rs:94-111 | appends exactly `RShift(dest, arg1, arg2, signed)` |
| JitBlock.BasicBlock.SignExtend | jitterbug/src/block.rs:45-60 | appends exactly `SignExtend(dest, arg1, ty)` |
| JitBlock.BasicBlock.ZeroExtend | jitterbug/src/block.rs:45-60 | appends exactly `ZeroExtend(dest, arg1, ty)` |
| JitBlock.BasicBlock.And | jitterbug/src/block.rs:62-77 | appends exactly `And(dest, arg1, arg2)` |
| JitBlock.BasicBlock.Or | jitterbug/src/block.rs:62-77 | appends exactly `Or(dest, arg1, arg2)` |
| JitBlock.BasicBlock.Xor | jitterbug/src/block.rs:62-77 | appends exactly `Xor(dest, arg1, arg2)` |
| JitBlock.BasicBlock.Not | jitterbug/src/block.rs:30-43 | appends exactly `Not(dest, arg1)` |
| JitBlock.BasicBlock.IntCmp | jitterbug/src/block.rs:136-149 | appends exactly `ICmp(dest, cmp, arg1, arg2)` |
| JitBlock.BasicBlock.Select | jitterbug/src/block.rs:151-164 | appends exactly `Select(cond, dest, arg1, arg2)` |
| JitBlock.BasicBlock.Branch | jitterbug/src/block.rs:166-177 | appends `Branch(cond, taken, not_taken)` like any other operation |
| JitBlock.BasicBlock.Exit | jitterbug/src/block.rs:179-181 | appends `Exit(code)` like any other operation |
| JitBlock.UnsafeBasicBlock.constructor | jitterbug/src/block.rs:8-11 | a default unsafe block has no operations |
| JitBlock.UnsafeBasicBlock.Add | jitterbug/src/block.rs:94-111 | appends exactly `Add(dest, arg1, arg2, signed)` |
| JitBlock.UnsafeBasicBlock.Sub | jitterbug/src/block.rs:94-111 | appends exactly `Sub(dest, arg1, arg2, signed)` |
| JitBlock.UnsafeBasicBlock.Mult | jitterbug/src/block.rs:94-111 | appends exactly `Mult(dest, arg1, arg2, signed)` |
| JitBlock.UnsafeBasicBlock.Div | jitterbug/src/block.rs:94-111 | appends exactly `Div(dest, arg1, arg2, signed)` |
| JitBlock.UnsafeBasicBlock.Rem | jitterbug/src/block.rs:94-111 | appends exactly `Rem(dest, arg1, arg2, signed)` |
| JitBlock.UnsafeBasicBlock.ShiftLeft | jitterbug/src/block.rs:62-77 | appends exactly `LShift(dest, arg1, arg2)` |
| JitBlock.UnsafeBasicBlock.ShiftRight | jitterbug/src/block.rs:94-111 | appends exactly `RShift(dest, arg1, arg2, signed)` |
| JitBlock.UnsafeBasicBlock.SignExtend | jitterbug/src/block.rs:45-60 | appends exactly `SignExtend(dest, arg1, ty)` |
| JitBlock.UnsafeBasicBlock.ZeroExtend | jitterbug/src/block.rs:45-60 | appends exactly `ZeroExtend(dest, arg1, ty)` |
| JitBlock.UnsafeBasicBlock.And | jitterbug/src/block.rs:62-77 | appends exactly `And(dest, arg1, arg2)` |
| JitBlock.UnsafeBasicBlock.Or | jitterbug/src/block.rs:62-77 | appends exactly `Or(dest, arg1, arg2)` |
| JitBlock.UnsafeBasicBlock.Xor | jitterbug/src/block.rs:62-77 | appends exactly `Xor(dest, arg1, arg2)` |
| JitBlock.UnsafeBasicBlock.Not | jitterbug/src/block.rs:30-43 | appends exactly `Not(dest, arg1)` |
| JitBlock.UnsafeBasicBlock.IntCmp | jitterbug/src/block.rs:136-149 | appends exactly `ICmp(dest, cmp, arg1, arg2)` |
| JitBlock.UnsafeBasicBlock.Select | jitterbug/src/block.rs:151-164 | appends exactly `Select(cond, dest, arg1, arg2)` |
| JitBlock.UnsafeBasicBlock.Branch | jitterbug/src/block.rs:166-177 | appends `Branch(cond, taken, not_taken)` like any other operation |
| JitBlock.UnsafeBasicBlock.Exit | jitterbug/src/block.rs:179-181 | appends `Exit(code)` like any other operation |
| JitBlock.UnsafeBasicBlock.HostMemRead | jitterbug/src/block.rs:192-201 | appends exactly `HostReadMem(dest, arg1)`, which only this block type offers |
| JitBlock.UnsafeBasicBlock.HostMemWrite | jitterbug/src/block.rs:203-212 | appends exactly `HostWriteMem(arg1, arg2)`, which only this block type offers |
| JitBlock.TerminatorNotLast | jitterbug/src/block.rs:166-181 | nothing stops an operation from following `exit`; such a block holds a terminator and still fails `validate` |
| Unit.WithBlock | jitterbug/src/unit.rs:12-22 | an unterminated block is refused with the source's message; otherwise the label names the new block, every other label keeps its block, the entry is untouched and well-formedness is preserved |
| Unit.WithEntry | jitterbug/src/unit.rs:24-32 | an unknown label is refused with the source's message; otherwise the entry is that label's block, and a set entry always names an existing block |
| Unit.LastWriteWins | jitterbug/src/unit.rs:19 | adding two blocks under one label keeps the second |
| Unit.EntryFollowsLabel | jitterbug/src/unit.rs:12-32 | the entry keeps naming the block it was set to while other labels are added |
| Unit.AddIsInsert | jitterbug/src/unit.rs:19 | through the label-keyed view, a successful add is exactly a map insertion |
| Unit.TranslationUnit.constructor | jitterbug/src/unit.rs:5-9 | a default unit is empty and well-formed |
| Unit.TranslationUnit.AddBasicBlock | jitterbug/src/unit.rs:12-22 | the new contents are `WithBlock` of the old ones; on an error nothing changes |
| Unit.TranslationUnit.SetEntry | jitterbug/src/unit.rs:24-32 | the new contents are `WithEntry` of the old ones; on an error nothing changes |
| Unit.UnsafeTranslationUnit.constructor | jitterbug/src/unit.rs:40-44 | a default unsafe unit has no blocks and no entry |
| Unit.UnsafeTranslationUnit.AddBasicBlock | jitterbug/src/unit.rs:47-57 | an unterminated block is refused and nothing changes; otherwise the label maps to the block tagged safe |
| Unit.UnsafeTranslationUnit.AddUnsafeBasicBlock | jitterbug/src/unit.rs:59-73 | the same check; the label maps to the block tagged unsafe, in the same namespace |
| Unit.UnsafeTranslationUnit.SetEntry | jitterbug/src/unit.rs:75-83 | an unknown label is refused and the entry kept; otherwise the entry is the label, and it always names a stored block |
| RegMap.SizeOf | jitterbug/src/ir/reg.rs:56 | `size_of::<T>()` is 1, 2, 4 or 8 bytes |
| RegMap.ToRegType | jitterbug/src/ir/reg.rs:22-44 | `to_reg_type` maps u8/u16/u32/u64 to the register type of the same width |
| RegMap.RegisterOffset | jitterbug/src/ir/reg.rs:50-57 | as written: `None` exactly when `reg <= N`; otherwise the offset is `size * reg` with the element's register type |
| RegMap.RegisterOffsetGuardInverted | jitterbug/src/ir/reg.rs:52-54 | register 0 of a ten-slot `u64` array is refused and register 11 is accepted, at an offset past the array's end |
| RegMap.RegisterOffsetInBounds | jitterbug/src/ir/reg.rs:50-57 | with the intended guard: `Some` exactly when `reg < N`, and the register's bytes then lie inside the array |
| HostState.Read | jitterbug/src/interpret/mod.rs:36-43 | a register read is its value at its own width, zero-extended |
| HostState.ReadImmed | lwvm/src/interpret/mod.rs:31 | a register read as an immediate has the register's type and value |
| HostState.Write | jitterbug/src/interpret/mod.rs:65-72 | a write keeps the register's type and stores the value truncated to its width |
| HostState.ReadAfterWrite | jitterbug/src/interpret/mod.rs:65-72 | reading after a write gives the value modulo 2^width, and a value that fits comes back unchanged |
| Interpret.CompileUnit | lwvm/src/interpret/mod.rs:142-152 | compiling always succeeds, with a copy of the unit |
| Interpret.RvToImmed | lwvm/src/interpret/mod.rs:27-35 | an immediate evaluates to itself; a register reads at its width; `Scratch` and a register past the table abort |
| Interpret.AddImmed | lwvm/src/interpret/mod.rs:45-54 | the sum modulo 2^width of the common type; Bool plus Bool is an I8 counting the `true`s |
| Interpret.SubImmed | lwvm/src/interpret/mod.rs:78-87 | as written: the difference of the `upcast` pair in its returned order, modulo 2^width; Bool minus Bool gives 0, 1 or 0xff |
| Interpret.SubImmedOrdered | lwvm/src/interpret/mod.rs:78-87 | the corrected subtraction, operands in their given order; its type is the common type (I8 for two Bools); its values are stated by the three lemmas below |
| Interpret.SubOrderedSubtracts | lwvm/src/interpret/mod.rs:78-87 | unsigned, the ordered difference is `a - b` modulo the common width, whichever operand is wider |
| Interpret.SubOrderedSubtractsSigned | lwvm/src/interpret/mod.rs:78-87 | signed, the ordered difference is the difference of the sign-extended readings modulo the common width, whichever operand is wider |
| Interpret.SubOrderedBools | lwvm/src/interpret/mod.rs:82 | Bool minus Bool counts each as 0 or 1 and gives the I8 difference: 0, 1 or 0xff |
| Interpret.SameSizeOrWiderIsCommonType | lwvm/src/ir/types.rs:147-161 | a first operand at least as wide is returned as it is, as the common value |
| Interpret.Flatten | lwvm/src/interpret/mod.rs:56-60 | the stored pattern is the sign-extended value when signed and the zero-extended one otherwise; either way its low bits are the value's own |
| Interpret.FlattenLowBits | lwvm/src/interpret/mod.rs:56-60 | the sign-extended pattern is a `u64` that reads back as the signed value and keeps the low bits |
| Interpret.Store | lwvm/src/interpret/mod.rs:62-67 | a register destination inside the table gets the truncated value and nothing else changes; `Scratch` or a register past the table aborts |
| Interpret.AddEffect | lwvm/src/interpret/mod.rs:37-68 | `op_add` succeeds exactly when both operands read and the destination is a register in the table; only the destination changes, to the flattened sum truncated to its width |
| Interpret.SubEffect | lwvm/src/interpret/mod.rs:70-101 | `op_sub` as written: it succeeds exactly when both operands read and the destination is a register in the table; only the destination changes, to the flattened as-written difference truncated to its width |
| Interpret.SubEffectOrdered | lwvm/src/interpret/mod.rs:70-101 | the corrected `op_sub`: the same reads, panics and frame as `SubEffect`, with the flattened ordered difference stored |
| Interpret.BranchTarget | lwvm/src/interpret/mod.rs:103-115 | a zero condition selects `not_taken`, anything else `taken`; the label's block index, or an `unwrap` panic for an unknown label |
| Interpret.BlockEffect | lwvm/src/interpret/mod.rs:117-139 | a block that completes holds a terminator and keeps the register count (the abort cases are `InterpretProps.UnterminatedBlockPanics` and `InterpretProps.UnimplementedOperationPanics`; `InterpretProps.BlockStopsAtTerminator` shows nothing runs after a terminator) |
| Interpret.RunBlock | lwvm/src/interpret/mod.rs:158-159 | an index past the block vector aborts; otherwise the block runs |
| Interpret.ExecuteSpec | lwvm/src/interpret/mod.rs:154-166 | no entry point aborts; otherwise blocks run from the entry, following branches, until an `Exit` or the fuel runs out; `Sub` runs as written |
| Interpret.OpAdd | lwvm/src/interpret/mod.rs:37-68 | the in-place `op_add` leaves exactly the state `AddEffect` gives, or its panic |
| Interpret.OpSub | lwvm/src/interpret/mod.rs:70-101 | the in-place `op_sub`, as written, leaves exactly the state `SubEffect` gives, or its panic |
| Interpret.ExecuteBlock | lwvm/src/interpret/mod.rs:117-139 | the loop over a block's operations ends as `BlockEffect` says, in the state it says |
| Interpret.Execute | lwvm/src/interpret/mod.rs:154-166 | the block loop ends as `ExecuteSpec` says, in the state it says |
| InterpretProps.AddImmedCommutes | lwvm/src/interpret/mod.rs:45-54 | addition does not depend on operand order, even across widths, so the swapped `upcast` pair is harmless for `Add` |
| InterpretProps.UpcastZipIgnoresOrder | lwvm/src/ir/types.rs:164-174 | operands of different widths are zipped the same way in either order |
| InterpretProps.SubAsWrittenSwapsOperands | lwvm/src/interpret/mod.rs:78-87 | as written, I8 5 minus I16 1 gives I16 0xFFFC, i.e. 1 - 5; the ordered subtraction gives 4 |
| InterpretProps.SubOrderedAgreesOnEqualWidths | lwvm/src/interpret/mod.rs:78-87 | on operands of one width the ordered and the as-written subtraction agree |
| InterpretProps.SubSelfIsZero | lwvm/src/interpret/mod.rs:78-87 | a value minus itself is zero at every width |
| InterpretProps.UnterminatedBlockPanics | lwvm/src/interpret/mod.rs:117-139 | a block with no terminator never completes |
| InterpretProps.UnimplementedOperationPanics | lwvm/src/interpret/mod.rs:134 | a block whose next operation is not `Add`, `Sub`, `Exit` or `Branch` aborts with the unimplemented-operation panic |
| InterpretProps.SubEffectSwapsOperands | lwvm/src/interpret/mod.rs:70-101 | in the interpreter, unsigned I8 5 minus I16 1 into a zeroed 64-bit register stores 0xFFFC as written and 4 when corrected |
| InterpretProps.BlockStopsAtTerminator | lwvm/src/interpret/mod.rs:122-133 | operations after the first terminator never run |
| InterpretProps.BranchLandsInUnit | lwvm/src/interpret/mod.rs:103-115 | in a well-formed unit every branch target is an existing block |
| InterpretProps.MoreFuelSameOutcome | lwvm/src/interpret/mod.rs:157-164 | a run that ended without running out of fuel ends the same with more fuel |
| InterpretProps.OutOfFuelIsAPrefix | lwvm/src/interpret/mod.rs:157-164 | a run that ran out continues, with more fuel, from exactly where it stopped |
| InterpretProps.ExecuteStableUnderMoreFuel | lwvm/src/interpret/mod.rs:154-166 | an `Exit` reached with some fuel is reached, in the same state, with any more |
| InterpretProps.ZeroState | lwvm/src/lib.rs:37 | ten 64-bit registers, all zero |
| InterpretProps.ItWorks | lwvm/src/lib.rs:15-44 | the library's test unit, run on ten zero registers, exits with register 0 holding -7 sign-extended to 64 bits |
| JitInterpret.CompileUnit | jitterbug/src/interpret/mod.rs:103-114 | compiling always succeeds, with a copy of the unit |
| JitInterpret.RvalueToU64 | jitterbug/src/interpret/mod.rs:21-50 | immediates zero-extend (Bool to 0 or 1); a register reads its zero-extended value; `Scratch` and a register past the table abort |
| JitInterpret.WrappingAddI64 | jitterbug/src/interpret/mod.rs:57 | `wrapping_add` is the sum when it fits, and otherwise differs from it by 2^64 |
| JitInterpret.AddValue | jitterbug/src/interpret/mod.rs:56-60 | signed, the sum modulo 2^64; unsigned, the sum when it fits in 64 bits and an overflow panic otherwise |
| JitInterpret.SignedAddWraps | jitterbug/src/interpret/mod.rs:57 | adding two `u64`s as `i64`s with wrap-around and reading the result back as `u64` is addition modulo 2^64 |
| JitInterpret.LowBitsOfWrapped | jitterbug/src/interpret/mod.rs:65-72 | truncating the wrapped sum keeps the low bits of the full sum |
| JitInterpret.AddEffect | jitterbug/src/interpret/mod.rs:52-77 | `op_add` succeeds exactly when both operands read, the unsigned sum does not overflow and the destination is a register in the table; only the destination changes, to the sum modulo its width |
| JitInterpret.BranchTarget | jitterbug/src/interpret/mod.rs:79-87 | the same target, or the same panic, as the reference interpreter's branch |
| JitInterpret.BlockEffect | jitterbug/src/interpret/mod.rs:89-100 | a block that completes holds a terminator and keeps the register count; `InterpretersAgree.BlocksAgree` ties it to the reference interpreter's block on shared operations |
| JitInterpret.UnimplementedOperationPanics | jitterbug/src/interpret/mod.rs:95 | a block whose next operation is not `Add`, `Exit` or `Branch`, `Sub` included, aborts with the unimplemented-operation panic |
| JitInterpret.RunBlock | jitterbug/src/interpret/mod.rs:120-121 | an index past the block vector aborts; otherwise the block runs |
| JitInterpret.ExecuteSpec | jitterbug/src/interpret/mod.rs:116-127 | no entry point aborts; otherwise blocks run from the entry until an `Exit` or the fuel runs out |
| JitInterpret.OpAdd | jitterbug/src/interpret/mod.rs:52-77 | the in-place `op_add` leaves exactly the state `AddEffect` gives; on a panic the state is untouched |
| JitInterpret.ExecuteBlock | jitterbug/src/interpret/mod.rs:89-100 | the loop over a block's operations ends as `BlockEffect` says, in the state it says |
| JitInterpret.Execute | jitterbug/src/interpret/mod.rs:116-127 | the block loop ends as `ExecuteSpec` says, in the state it says |
| InterpretersAgree.ReadsAgree | jitterbug/src/interpret/mod.rs:21-50 | both interpreters read an operand with the same panics, and to the same zero-extended value |
| InterpretersAgree.SignedUnsignedAgree | jitterbug/src/interpret/mod.rs:56-60 | without overflow, the signed and unsigned sums are equal |
| InterpretersAgree.Sum64Agrees | jitterbug/src/interpret/mod.rs:56-57 | on 64-bit operands the signed sum is the reference interpreter's flattened `I64` sum |
| InterpretersAgree.Read64 | jitterbug/src/interpret/mod.rs:34-45 | on a 64-bit state a 64-bit operand reads as the `I64` of its zero-extended value |
| InterpretersAgree.AddAgrees | jitterbug/src/interpret/mod.rs:52-77 | a signed 64-bit `Add` on a 64-bit state has the same effect in both interpreters and keeps the state 64-bit |
| InterpretersAgree.BlocksAgree | jitterbug/src/interpret/mod.rs:89-100 | a block of shared operations ends the same way in both interpreters |
| InterpretersAgree.StepsAgree | jitterbug/src/interpret/mod.rs:116-127 | two block steps that agree on 64-bit states give the same runs |
| InterpretersAgree.BlockStepsAgree | jitterbug/src/interpret/mod.rs:120-121 | the two interpreters' block steps agree on 64-bit states |
| InterpretersAgree.ExecutionsAgree | jitterbug/src/interpret/mod.rs:116-127 | a unit of shared operations, run on a 64-bit state, has the same outcome and final state in both interpreters |
| InterpretersAgree.NarrowSignedAddDiffers | jitterbug/src/interpret/mod.rs:56-57 | signed I16 -3 plus -4 into a 64-bit register stores 0x1FFF9 here and -7 sign-extended in the reference interpreter |
| InterpretersAgree.UnsignedOverflowDiffers | jitterbug/src/interpret/mod.rs:59 | unsigned 2^64-1 plus 1 aborts here and wraps to 0 in the reference interpreter |
| Ctx.CompileWith | jitterbug/src/backend.rs:16-23 | the interpreter backend always compiles; the platform default backend always fails with "No platform backend available" |
| Ctx.ExecutionContext.constructor | jitterbug/src/ctx.rs:11-14 | a context owns its backend and has compiled nothing |
| Ctx.ExecutionContext.CompileUnit | jitterbug/src/ctx.rs:30-35 | one call to the backend, whose result is returned unchanged |
| Ctx.ExecutionContext.Compile | jitterbug/src/ctx.rs:17-28 | one backend call; its error is passed on; otherwise a fresh compiled unit keeps the translation unit and a handle that is already dead |
| Ctx.CompiledTranslationUnit.constructor | jitterbug/src/ctx.rs:23-27 | a compiled unit keeps its context and unit |
| Ctx.CompiledTranslationUnit.Execute | jitterbug/src/ctx.rs:47-60 | a live handle runs without calling the backend; a dead one calls it once, aborts on its error, and otherwise runs the new executable; the run is `ExecuteSpec` of the retained unit, which never changes |
| Ctx.ItWorks | lwvm/src/lib.rs:15-44 | the library's test end to end: build, add, set the entry, compile, execute; register 0 holds -7 sign-extended, and the backend compiled the unit twice |
| JitContext.Digit | jitterbug/src/context.rs:25 | one decimal digit character |
| JitContext.Decimal | jitterbug/src/context.rs:25 | `{}` formatting of an offset: decimal digits, no leading zero |
| JitContext.DecimalRoundTrip | jitterbug/src/context.rs:25 | the digits read back as the number they were written from |
| JitContext.Context.constructor | jitterbug/src/context.rs:12-19 | a default context has all 256 register slots unmapped |
| JitContext.Context.MapRegister | jitterbug/src/context.rs:23-29 | an offset outside the state aborts and maps nothing; otherwise exactly that slot, replacing any earlier mapping, now holds the offset; every mapped offset stays inside the state |
| JitContext.Context.NewUnit | jitterbug/src/context.rs:31-33 | a new unit is bound to the context and not compiled |
| JitContext.TranslationUnit.constructor | jitterbug/src/context.rs:45-51 | a new unit is not compiled |

## Left out

- Raw pointer access to the state: `(state as *const u8).add(offset)` and the typed reads and writes through it. The state is a sequence of register slots. A register number is an index into it, and the slot carries the width that the register table would give.
- The register table `regs: Vec<Register>` built by `State::register_offsets()`. `RegisterMap::register_offsets` is not part of this model. Widths are carried by the state's slots instead, and an index past the end is the table's index panic.
- Interpreter semantics for `Mult`, `Div`, `Rem`, the shifts, the extensions, the bitwise operations, `ICmp`, `Select` and the memory operations. Both interpreters abort on them.
- The panic text for an unimplemented operation. It is the constant "Unimplemented operation"; the `{:?}` rendering of the operation that follows it is dropped.
- The state after a panic. An aborted run is only the `Panic` outcome; what the array holds after a panic in a later operation of a block is not stated.
- Termination of `execute`. Runs take a `fuel` bound on the number of blocks; a run that needs more blocks ends as `OutOfFuel`.
- `Rc`/`Weak` reclamation, `RefCell` borrowing and lifetimes. The weak handle is a field holding the executable while it is alive. Neither backend keeps the executable alive, so nothing in the model makes the handle live.
- `ExecutionContext::compile` over a generic state type. The context is modelled with the reference interpreter as its interpreter backend.
- Native backends. `PlatformDefaultBackend` is only the failing compile.
- Release-build integer overflow. jitterbug's unsigned `+` is modelled as in a debug build, where overflow panics.
- jitterbug's `guest_mem_read` and `guest_mem_write` block methods. Their operations carry no width, while the model's single operation type takes lwvm's width-carrying form.
- jitterbug/src/reg.rs, an earlier copy of the `register_offset` arithmetic, together with jitterbug/src/types.rs, jitterbug/src/ops.rs, src/ir.rs and src/block.rs, which are data declarations only. Commented-out code is left out as well.
- lwvm/src/unit.rs, lwvm/src/ctx.rs, lwvm/src/ir/reg.rs and lwvm/src/ir/ops.rs are not part of this model. The unit takes the shape the lwvm interpreter reads, with jitterbug's rules. The context follows jitterbug/src/ctx.rs.
- Ctx.ExecutionContext.CompileUnit: the model counts backend calls in `compilations`, a field the source does not have. It exists to state when `execute` recompiles.
- The `Debug` escaping of the error string in `Ctx.UnwrapErr`. The backend messages contain no characters that would be escaped.

## Findings

| source | as written | input that shows it | evidently intended | confidence | as-written member | corrected member |
|---|---|---|---|---|---|---|
| jitterbug/src/ir/reg.rs:52-54 | `register_offset` returns `None` when `self.len() >= reg`, so it refuses every register inside the array and accepts only those past its end | `[u64; 10]`: register 0 gives `None`; register 11 gives offset 88, whose eight bytes lie past the array's 80 | `None` exactly when `reg >= len`, so every accepted register's bytes lie inside the array | high; not executed | RegMap.RegisterOffset, RegMap.RegisterOffsetGuardInverted | RegMap.RegisterOffsetInBounds |
| lwvm/src/interpret/mod.rs:80-86 | `op_sub` subtracts the pair from `upcast_zip`, which is (wider, narrower); when the first operand is the narrower one, it computes `arg2 - arg1` | unsigned `I8(5) - I16(1)` stores `I16(0xFFFC)` (1 - 5) instead of `I16(4)` | `arg1 - arg2` at the common width whatever the widths; `Add` is unaffected because it commutes | high; not executed | Interpret.SubEffect, InterpretProps.SubEffectSwapsOperands | Interpret.SubEffectOrdered, Interpret.SubOrderedSubtracts, Interpret.SubOrderedSubtractsSigned |
