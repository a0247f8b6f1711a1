/** The basic-block builder: operations accumulate in a builder, and `FinishBranch` or
    `FinishExit` append the one terminator and hand out the frozen block. */
module Block {
  import opened Types
  import opened Ops

  /** A finished block. Built by the builder below, or directly from any operation list
      (which is why a translation unit validates it again). */
  datatype BasicBlock = BasicBlock(ops: seq<Operation>)

  class BasicBlockBuilder {
    var ops: seq<Operation>

    /** A builder that can still be used holds no terminator. Finishing appends one, after
        which no builder method can be called: this stands for the builder being consumed. */
    ghost predicate Valid()
      reads this
    {
      NoTerminator(ops)
    }

    /** `BasicBlock::builder()`: an empty operation list. */
    constructor ()
      ensures Valid() && ops == []
    {
      ops := [];
    }

    method Add(dest: LValue, arg1: RValue, arg2: RValue, signed: bool)
      requires Valid()
      modifies this
      ensures Valid() && ops == old(ops) + [Operation.Add(dest, arg1, arg2, signed)]
    {
      ops := ops + [Operation.Add(dest, arg1, arg2, signed)];
    }

    method Sub(dest: LValue, arg1: RValue, arg2: RValue, signed: bool)
      requires Valid()
      modifies this
      ensures Valid() && ops == old(ops) + [Operation.Sub(dest, arg1, arg2, signed)]
    {
      ops := ops + [Operation.Sub(dest, arg1, arg2, signed)];
    }

    method Mult(dest: LValue, arg1: RValue, arg2: RValue, signed: bool)
      requires Valid()
      modifies this
      ensures Valid() && ops == old(ops) + [Operation.Mult(dest, arg1, arg2, signed)]
    {
      ops := ops + [Operation.Mult(dest, arg1, arg2, signed)];
    }

    method Div(dest: LValue, arg1: RValue, arg2: RValue, signed: bool)
      requires Valid()
      modifies this
      ensures Valid() && ops == old(ops) + [Operation.Div(dest, arg1, arg2, signed)]
    {
      ops := ops + [Operation.Div(dest, arg1, arg2, signed)];
    }

    method Rem(dest: LValue, arg1: RValue, arg2: RValue, signed: bool)
      requires Valid()
      modifies this
      ensures Valid() && ops == old(ops) + [Operation.Rem(dest, arg1, arg2, signed)]
    {
      ops := ops + [Operation.Rem(dest, arg1, arg2, signed)];
    }

    method ShiftLeft(dest: LValue, arg1: RValue, arg2: RValue)
      requires Valid()
      modifies this
      ensures Valid() && ops == old(ops) + [Operation.LShift(dest, arg1, arg2)]
    {
      ops := ops + [Operation.LShift(dest, arg1, arg2)];
    }

    method ShiftRight(dest: LValue, arg1: RValue, arg2: RValue, signed: bool)
      requires Valid()
      modifies this
      ensures Valid() && ops == old(ops) + [Operation.RShift(dest, arg1, arg2, signed)]
    {
      ops := ops + [Operation.RShift(dest, arg1, arg2, signed)];
    }

    method SignExtend(dest: LValue, arg1: RValue, ty: IntType)
      requires Valid()
      modifies this
      ensures Valid() && ops == old(ops) + [Operation.SignExtend(dest, arg1, ty)]
    {
      ops := ops + [Operation.SignExtend(dest, arg1, ty)];
    }

    method ZeroExtend(dest: LValue, arg1: RValue, ty: IntType)
      requires Valid()
      modifies this
      ensures Valid() && ops == old(ops) + [Operation.ZeroExtend(dest, arg1, ty)]
    {
      ops := ops + [Operation.ZeroExtend(dest, arg1, ty)];
    }

    method And(dest: LValue, arg1: RValue, arg2: RValue)
      requires Valid()
      modifies this
      ensures Valid() && ops == old(ops) + [Operation.And(dest, arg1, arg2)]
    {
      ops := ops + [Operation.And(dest, arg1, arg2)];
    }

    method Or(dest: LValue, arg1: RValue, arg2: RValue)
      requires Valid()
      modifies this
      ensures Valid() && ops == old(ops) + [Operation.Or(dest, arg1, arg2)]
    {
      ops := ops + [Operation.Or(dest, arg1, arg2)];
    }

    method Xor(dest: LValue, arg1: RValue, arg2: RValue)
      requires Valid()
      modifies this
      ensures Valid() && ops == old(ops) + [Operation.Xor(dest, arg1, arg2)]
    {
      ops := ops + [Operation.Xor(dest, arg1, arg2)];
    }

    method Not(dest: LValue, arg1: RValue)
      requires Valid()
      modifies this
      ensures Valid() && ops == old(ops) + [Operation.Not(dest, arg1)]
    {
      ops := ops + [Operation.Not(dest, arg1)];
    }

    method GuestMemRead(dest: LValue, arg1: RValue, width: u8)
      requires Valid()
      modifies this
      ensures Valid() && ops == old(ops) + [Operation.GuestReadMem(dest, arg1, width)]
    {
      ops := ops + [Operation.GuestReadMem(dest, arg1, width)];
    }

    method GuestMemWrite(arg1: RValue, arg2: RValue, width: u8)
      requires Valid()
      modifies this
      ensures Valid() && ops == old(ops) + [Operation.GuestWriteMem(arg1, arg2, width)]
    {
      ops := ops + [Operation.GuestWriteMem(arg1, arg2, width)];
    }

    method IntCmp(dest: LValue, cmp: Comparator, arg1: RValue, arg2: RValue)
      requires Valid()
      modifies this
      ensures Valid() && ops == old(ops) + [Operation.ICmp(dest, cmp, arg1, arg2)]
    {
      ops := ops + [Operation.ICmp(dest, cmp, arg1, arg2)];
    }

    method Select(cond: RValue, dest: LValue, arg1: RValue, arg2: RValue)
      requires Valid()
      modifies this
      ensures Valid() && ops == old(ops) + [Operation.Select(cond, dest, arg1, arg2)]
    {
      ops := ops + [Operation.Select(cond, dest, arg1, arg2)];
    }

    /** `finish_branch`: the collected operations followed by `Branch`. */
    method FinishBranch(cond: RValue, labelTaken: BlockLabel, labelNotTaken: BlockLabel) returns (block: BasicBlock)
      requires Valid()
      modifies this
      ensures block.ops == old(ops) + [Operation.Branch(cond, labelTaken, labelNotTaken)]
      ensures Validate(block.ops) && TerminatorCount(block.ops) == 1
      ensures !Valid()
    {
      TerminatedStreamShape(ops, Operation.Branch(cond, labelTaken, labelNotTaken));
      ops := ops + [Operation.Branch(cond, labelTaken, labelNotTaken)];
      block := BasicBlock(ops);
      assert ops[|ops| - 1].IsTerminator();
    }

    /** `finish_exit`: the collected operations followed by `Exit(code)`. */
    method FinishExit(code: u8) returns (block: BasicBlock)
      requires Valid()
      modifies this
      ensures block.ops == old(ops) + [Operation.Exit(code)]
      ensures Validate(block.ops) && TerminatorCount(block.ops) == 1
      ensures !Valid()
    {
      TerminatedStreamShape(ops, Operation.Exit(code));
      ops := ops + [Operation.Exit(code)];
      block := BasicBlock(ops);
      assert ops[|ops| - 1].IsTerminator();
    }

    /** An `unsafe` method: host memory accesses bypass the guest address space. */
    method HostMemRead(dest: LValue, arg1: RValue)
      requires Valid()
      modifies this
      ensures Valid() && ops == old(ops) + [Operation.HostReadMem(dest, arg1)]
    {
      ops := ops + [Operation.HostReadMem(dest, arg1)];
    }

    /** An `unsafe` method: host memory accesses bypass the guest address space. */
    method HostMemWrite(arg1: RValue, arg2: RValue)
      requires Valid()
      modifies this
      ensures Valid() && ops == old(ops) + [Operation.HostWriteMem(arg1, arg2)]
    {
      ops := ops + [Operation.HostWriteMem(arg1, arg2)];
    }
  }

  /** Whatever sequence of builder calls preceded it, a block handed out by `finish_branch`
      or `finish_exit` validates and holds exactly one terminator, its last operation. */
  lemma {:induction false} FinishedBlockIsTerminated(built: seq<Operation>, t: Operation)
    requires NoTerminator(built) && t.IsTerminator()
    ensures var b := BasicBlock(built + [t]);
      Validate(b.ops) && TerminatorCount(b.ops) == 1 &&
      b.ops[|b.ops| - 1] == t &&
      forall i :: 0 <= i < |b.ops| && b.ops[i].IsTerminator() ==> i == |b.ops| - 1
  {
    TerminatedStreamShape(built, t);
  }
}
