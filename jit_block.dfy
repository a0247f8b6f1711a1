/** The earlier block type: a plain operation vector with one appending method per
    operation kind. `Branch` and `Exit` are ordinary appends here, so nothing stops
    operations after a terminator or a block without one. */
module JitBlock {
  import opened Types
  import opened Ops

  /** A block restricted to the safe operations. */
  class BasicBlock {
    var ops: seq<Operation>

    /** `BasicBlock::default()`: no operations. */
    constructor ()
      ensures ops == []
    {
      ops := [];
    }

    method Add(dest: LValue, arg1: RValue, arg2: RValue, signed: bool)
      modifies this
      ensures ops == old(ops) + [Operation.Add(dest, arg1, arg2, signed)]
    {
      ops := ops + [Operation.Add(dest, arg1, arg2, signed)];
    }

    method Sub(dest: LValue, arg1: RValue, arg2: RValue, signed: bool)
      modifies this
      ensures ops == old(ops) + [Operation.Sub(dest, arg1, arg2, signed)]
    {
      ops := ops + [Operation.Sub(dest, arg1, arg2, signed)];
    }

    method Mult(dest: LValue, arg1: RValue, arg2: RValue, signed: bool)
      modifies this
      ensures ops == old(ops) + [Operation.Mult(dest, arg1, arg2, signed)]
    {
      ops := ops + [Operation.Mult(dest, arg1, arg2, signed)];
    }

    method Div(dest: LValue, arg1: RValue, arg2: RValue, signed: bool)
      modifies this
      ensures ops == old(ops) + [Operation.Div(dest, arg1, arg2, signed)]
    {
      ops := ops + [Operation.Div(dest, arg1, arg2, signed)];
    }

    method Rem(dest: LValue, arg1: RValue, arg2: RValue, signed: bool)
      modifies this
      ensures ops == old(ops) + [Operation.Rem(dest, arg1, arg2, signed)]
    {
      ops := ops + [Operation.Rem(dest, arg1, arg2, signed)];
    }

    method ShiftLeft(dest: LValue, arg1: RValue, arg2: RValue)
      modifies this
      ensures ops == old(ops) + [Operation.LShift(dest, arg1, arg2)]
    {
      ops := ops + [Operation.LShift(dest, arg1, arg2)];
    }

    method ShiftRight(dest: LValue, arg1: RValue, arg2: RValue, signed: bool)
      modifies this
      ensures ops == old(ops) + [Operation.RShift(dest, arg1, arg2, signed)]
    {
      ops := ops + [Operation.RShift(dest, arg1, arg2, signed)];
    }

    method SignExtend(dest: LValue, arg1: RValue, ty: IntType)
      modifies this
      ensures ops == old(ops) + [Operation.SignExtend(dest, arg1, ty)]
    {
      ops := ops + [Operation.SignExtend(dest, arg1, ty)];
    }

    method ZeroExtend(dest: LValue, arg1: RValue, ty: IntType)
      modifies this
      ensures ops == old(ops) + [Operation.ZeroExtend(dest, arg1, ty)]
    {
      ops := ops + [Operation.ZeroExtend(dest, arg1, ty)];
    }

    method And(dest: LValue, arg1: RValue, arg2: RValue)
      modifies this
      ensures ops == old(ops) + [Operation.And(dest, arg1, arg2)]
    {
      ops := ops + [Operation.And(dest, arg1, arg2)];
    }

    method Or(dest: LValue, arg1: RValue, arg2: RValue)
      modifies this
      ensures ops == old(ops) + [Operation.Or(dest, arg1, arg2)]
    {
      ops := ops + [Operation.Or(dest, arg1, arg2)];
    }

    method Xor(dest: LValue, arg1: RValue, arg2: RValue)
      modifies this
      ensures ops == old(ops) + [Operation.Xor(dest, arg1, arg2)]
    {
      ops := ops + [Operation.Xor(dest, arg1, arg2)];
    }

    method Not(dest: LValue, arg1: RValue)
      modifies this
      ensures ops == old(ops) + [Operation.Not(dest, arg1)]
    {
      ops := ops + [Operation.Not(dest, arg1)];
    }

    method IntCmp(dest: LValue, cmp: Comparator, arg1: RValue, arg2: RValue)
      modifies this
      ensures ops == old(ops) + [Operation.ICmp(dest, cmp, arg1, arg2)]
    {
      ops := ops + [Operation.ICmp(dest, cmp, arg1, arg2)];
    }

    method Select(cond: RValue, dest: LValue, arg1: RValue, arg2: RValue)
      modifies this
      ensures ops == old(ops) + [Operation.Select(cond, dest, arg1, arg2)]
    {
      ops := ops + [Operation.Select(cond, dest, arg1, arg2)];
    }

    method Branch(cond: RValue, labelTaken: BlockLabel, labelNotTaken: BlockLabel)
      modifies this
      ensures ops == old(ops) + [Operation.Branch(cond, labelTaken, labelNotTaken)]
    {
      ops := ops + [Operation.Branch(cond, labelTaken, labelNotTaken)];
    }

    method Exit(code: u8)
      modifies this
      ensures ops == old(ops) + [Operation.Exit(code)]
    {
      ops := ops + [Operation.Exit(code)];
    }
  }

  /** A block that may also hold host memory accesses. */
  class UnsafeBasicBlock {
    var ops: seq<Operation>

    /** `UnsafeBasicBlock::default()`: no operations. */
    constructor ()
      ensures ops == []
    {
      ops := [];
    }

    method Add(dest: LValue, arg1: RValue, arg2: RValue, signed: bool)
      modifies this
      ensures ops == old(ops) + [Operation.Add(dest, arg1, arg2, signed)]
    {
      ops := ops + [Operation.Add(dest, arg1, arg2, signed)];
    }

    method Sub(dest: LValue, arg1: RValue, arg2: RValue, signed: bool)
      modifies this
      ensures ops == old(ops) + [Operation.Sub(dest, arg1, arg2, signed)]
    {
      ops := ops + [Operation.Sub(dest, arg1, arg2, signed)];
    }

    method Mult(dest: LValue, arg1: RValue, arg2: RValue, signed: bool)
      modifies this
      ensures ops == old(ops) + [Operation.Mult(dest, arg1, arg2, signed)]
    {
      ops := ops + [Operation.Mult(dest, arg1, arg2, signed)];
    }

    method Div(dest: LValue, arg1: RValue, arg2: RValue, signed: bool)
      modifies this
      ensures ops == old(ops) + [Operation.Div(dest, arg1, arg2, signed)]
    {
      ops := ops + [Operation.Div(dest, arg1, arg2, signed)];
    }

    method Rem(dest: LValue, arg1: RValue, arg2: RValue, signed: bool)
      modifies this
      ensures ops == old(ops) + [Operation.Rem(dest, arg1, arg2, signed)]
    {
      ops := ops + [Operation.Rem(dest, arg1, arg2, signed)];
    }

    method ShiftLeft(dest: LValue, arg1: RValue, arg2: RValue)
      modifies this
      ensures ops == old(ops) + [Operation.LShift(dest, arg1, arg2)]
    {
      ops := ops + [Operation.LShift(dest, arg1, arg2)];
    }

    method ShiftRight(dest: LValue, arg1: RValue, arg2: RValue, signed: bool)
      modifies this
      ensures ops == old(ops) + [Operation.RShift(dest, arg1, arg2, signed)]
    {
      ops := ops + [Operation.RShift(dest, arg1, arg2, signed)];
    }

    method SignExtend(dest: LValue, arg1: RValue, ty: IntType)
      modifies this
      ensures ops == old(ops) + [Operation.SignExtend(dest, arg1, ty)]
    {
      ops := ops + [Operation.SignExtend(dest, arg1, ty)];
    }

    method ZeroExtend(dest: LValue, arg1: RValue, ty: IntType)
      modifies this
      ensures ops == old(ops) + [Operation.ZeroExtend(dest, arg1, ty)]
    {
      ops := ops + [Operation.ZeroExtend(dest, arg1, ty)];
    }

    method And(dest: LValue, arg1: RValue, arg2: RValue)
      modifies this
      ensures ops == old(ops) + [Operation.And(dest, arg1, arg2)]
    {
      ops := ops + [Operation.And(dest, arg1, arg2)];
    }

    method Or(dest: LValue, arg1: RValue, arg2: RValue)
      modifies this
      ensures ops == old(ops) + [Operation.Or(dest, arg1, arg2)]
    {
      ops := ops + [Operation.Or(dest, arg1, arg2)];
    }

    method Xor(dest: LValue, arg1: RValue, arg2: RValue)
      modifies this
      ensures ops == old(ops) + [Operation.Xor(dest, arg1, arg2)]
    {
      ops := ops + [Operation.Xor(dest, arg1, arg2)];
    }

    method Not(dest: LValue, arg1: RValue)
      modifies this
      ensures ops == old(ops) + [Operation.Not(dest, arg1)]
    {
      ops := ops + [Operation.Not(dest, arg1)];
    }

    method IntCmp(dest: LValue, cmp: Comparator, arg1: RValue, arg2: RValue)
      modifies this
      ensures ops == old(ops) + [Operation.ICmp(dest, cmp, arg1, arg2)]
    {
      ops := ops + [Operation.ICmp(dest, cmp, arg1, arg2)];
    }

    method Select(cond: RValue, dest: LValue, arg1: RValue, arg2: RValue)
      modifies this
      ensures ops == old(ops) + [Operation.Select(cond, dest, arg1, arg2)]
    {
      ops := ops + [Operation.Select(cond, dest, arg1, arg2)];
    }

    method Branch(cond: RValue, labelTaken: BlockLabel, labelNotTaken: BlockLabel)
      modifies this
      ensures ops == old(ops) + [Operation.Branch(cond, labelTaken, labelNotTaken)]
    {
      ops := ops + [Operation.Branch(cond, labelTaken, labelNotTaken)];
    }

    method Exit(code: u8)
      modifies this
      ensures ops == old(ops) + [Operation.Exit(code)]
    {
      ops := ops + [Operation.Exit(code)];
    }

    /** An `unsafe` method, only on this block type. */
    method HostMemRead(dest: LValue, arg1: RValue)
      modifies this
      ensures ops == old(ops) + [Operation.HostReadMem(dest, arg1)]
    {
      ops := ops + [Operation.HostReadMem(dest, arg1)];
    }

    /** An `unsafe` method, only on this block type. */
    method HostMemWrite(arg1: RValue, arg2: RValue)
      modifies this
      ensures ops == old(ops) + [Operation.HostWriteMem(arg1, arg2)]
    {
      ops := ops + [Operation.HostWriteMem(arg1, arg2)];
    }
  }

  /** Unlike the builder, this block type lets an operation follow `exit`: the result
      holds a terminator and still fails `validate`. */
  method TerminatorNotLast() returns (block: BasicBlock)
    ensures TerminatorCount(block.ops) == 1 && !Validate(block.ops)
  {
    block := new BasicBlock();
    block.Exit(0);
    block.Add(Register(0), Immediate(IntImmed.I16(3)), Immediate(IntImmed.I16(4)), true);
    assert block.ops == [Operation.Exit(0), Operation.Add(Register(0), Immediate(IntImmed.I16(3)), Immediate(IntImmed.I16(4)), true)];
  }
}
