/** Properties of the reference interpreter: the arithmetic it performs, where a block
    stops, what fuel does and does not change, and the library's own end-to-end example. */
module InterpretProps {
  import opened Wrappers
  import opened Types
  import opened Ops
  import opened Block
  import opened Unit
  import opened RegMap
  import opened HostState
  import opened Interpret

  // ---------------------------------------------------------------------------
  // Arithmetic

  /** Addition does not depend on the order of its operands, even across widths. */
  lemma {:induction false} AddImmedCommutes(a: IntImmed, b: IntImmed, signed: bool)
    ensures AddImmed(a, b, signed) == AddImmed(b, a, signed)
  {
    if a.Size() == b.Size() {
      SameSizeSameType(a, b);
      AddSameTypeCommutes(a, b, signed);
    } else {
      UpcastZipIgnoresOrder(a, b, signed);
    }
  }

  lemma {:induction false} AddSameTypeCommutes(a: IntImmed, b: IntImmed, signed: bool)
    requires a.GetType() == b.GetType()
    ensures AddImmed(a, b, signed) == AddImmed(b, a, signed)
  {
    var x, y := AddImmed(a, b, signed), AddImmed(b, a, signed);
    assert x.GetType() == y.GetType() && x.ToU64() == y.ToU64();
    ToU64Determines(x, y);
  }

  /** Operands of different widths are paired the same way in either order. */
  lemma {:induction false} UpcastZipIgnoresOrder(a: IntImmed, b: IntImmed, signed: bool)
    requires a.Size() != b.Size()
    ensures IntImmed.UpcastZip(a, b, signed) == IntImmed.UpcastZip(b, a, signed)
  {
    if a.Size() < b.Size() {
      UpcastSwapsNarrowFirst(a, b, signed);
    } else {
      UpcastSwapsNarrowFirst(b, a, signed);
    }
  }

  /** Subtracting a wider operand from a narrower one, as written, computes the
      difference the other way round: 5 - 1 at I16 comes out as 1 - 5. The ordered
      version gives 4. */
  lemma SubAsWrittenSwapsOperands()
    ensures SubImmed(IntImmed.I8(5), IntImmed.I16(1), false) == IntImmed.I16(0xFFFC)
    ensures SubImmedOrdered(IntImmed.I8(5), IntImmed.I16(1), false) == IntImmed.I16(4)
  {
    UpcastSwapsNarrowFirst(IntImmed.I8(5), IntImmed.I16(1), false);
  }

  /** On operands of one width the two subtractions agree. */
  lemma {:induction false} SubOrderedAgreesOnEqualWidths(a: IntImmed, b: IntImmed, signed: bool)
    requires a.Size() == b.Size()
    ensures SubImmedOrdered(a, b, signed) == SubImmed(a, b, signed)
  {
    SameSizeSameType(a, b);
    CastToOwnTypeIsIdentity(a, signed);
    CastToOwnTypeIsIdentity(b, signed);
  }

  /** A value subtracted from itself is zero, at every width. */
  lemma {:induction false} SubSelfIsZero(a: IntImmed, signed: bool)
    ensures SubImmedOrdered(a, a, signed).ToU64() == 0
  {
    SubOrderedAgreesOnEqualWidths(a, a, signed);
  }

  // ---------------------------------------------------------------------------
  // Blocks

  /** Only `Add`, `Sub`, `Exit` and `Branch` are implemented: a block whose next
      operation is anything else aborts there. */
  lemma {:induction false} UnimplementedOperationPanics(unit: UnitData, s: seq<Register>, ops: seq<Operation>)
    requires |ops| > 0 && !(ops[0].Add? || ops[0].Sub? || ops[0].Exit? || ops[0].Branch?)
    ensures BlockEffect(unit, s, ops) == Panic(UNIMPLEMENTED_OPERATION)
  {
  }

  /** The interpreter runs `op_sub` as written: unsigned I8 5 minus I16 1 into a zeroed
      64-bit register stores 0xFFFC (1 - 5 at I16), where the ordered subtraction would
      store 4. */
  lemma SubEffectSwapsOperands()
    ensures var s, a, b := ZeroState(), RValue.Immediate(IntImmed.I8(5)), RValue.Immediate(IntImmed.I16(1));
      && SubEffect(s, LValue.Register(0), a, b, false) == Done(s[0 := Slot(RegisterType.I64, 0xFFFC)])
      && SubEffectOrdered(s, LValue.Register(0), a, b, false) == Done(s[0 := Slot(RegisterType.I64, 4)])
  {
    SubAsWrittenSwapsOperands();
  }

  /** A block without a terminator never completes: it aborts, at the latest when it runs
      off its end. */
  lemma {:induction false} UnterminatedBlockPanics(unit: UnitData, s: seq<Register>, ops: seq<Operation>)
    requires NoTerminator(ops)
    ensures BlockEffect(unit, s, ops).Panic?
  {
    NoTerminatorCountsZero(ops);
  }

  /** Operations after the first terminator are never reached. */
  lemma {:induction false} BlockStopsAtTerminator(unit: UnitData, s: seq<Register>, pre: seq<Operation>, t: Operation, post: seq<Operation>)
    requires NoTerminator(pre) && t.IsTerminator()
    ensures BlockEffect(unit, s, pre + [t] + post) == BlockEffect(unit, s, pre + [t])
    decreases |pre|
  {
    var whole, cut := pre + [t] + post, pre + [t];
    if |pre| == 0 {
      assert whole[0] == t && cut[0] == t;
    } else {
      assert whole[0] == pre[0] && cut[0] == pre[0];
      assert whole[1..] == pre[1..] + [t] + post;
      assert cut[1..] == pre[1..] + [t];
      var op := pre[0];
      if op.Add? {
        var e := AddEffect(s, op.dest, op.arg1, op.arg2, op.signed);
        if e.Done? {
          BlockStopsAtTerminator(unit, e.value, pre[1..], t, post);
        }
      } else if op.Sub? {
        var e := SubEffect(s, op.dest, op.arg1, op.arg2, op.signed);
        if e.Done? {
          BlockStopsAtTerminator(unit, e.value, pre[1..], t, post);
        }
      }
    }
  }

  /** A branch in a well-formed unit lands on an existing block. */
  lemma {:induction false} BranchLandsInUnit(unit: UnitData, s: seq<Register>, cond: RValue, taken: BlockLabel, notTaken: BlockLabel)
    requires Valid(unit)
    ensures BranchTarget(unit, s, cond, taken, notTaken).Done? ==> BranchTarget(unit, s, cond, taken, notTaken).value < |unit.blocks|
  {
  }

  // ---------------------------------------------------------------------------
  // Fuel

  /** Fuel only bounds the run: once a run ends without running out, any larger fuel
      gives the same outcome. */
  lemma {:induction false} MoreFuelSameOutcome(step: BlockStep, s: seq<Register>, idx: nat, fuel: nat, fuel': nat)
    requires fuel <= fuel'
    requires !(RunWith(step, s, idx, fuel).Done? && RunWith(step, s, idx, fuel).value.0.OutOfFuel?)
    ensures RunWith(step, s, idx, fuel') == RunWith(step, s, idx, fuel)
    decreases fuel
  {
    var b := step(s, idx);
    if b.Done? && b.value.0.BranchTo? {
      MoreFuelSameOutcome(step, b.value.1, b.value.0.idx, fuel - 1, fuel' - 1);
    }
  }

  /** Running out of fuel is the only way fuel shows: with more fuel, a run that ran out
      either ends or runs out later, having passed through the same blocks. */
  lemma {:induction false} OutOfFuelIsAPrefix(step: BlockStep, s: seq<Register>, idx: nat, fuel: nat, fuel': nat)
    requires fuel <= fuel'
    requires RunWith(step, s, idx, fuel).Done? && RunWith(step, s, idx, fuel).value.0.OutOfFuel?
    ensures var r := RunWith(step, s, idx, fuel).value;
      RunWith(step, s, idx, fuel') == RunWith(step, r.1, r.0.idx, fuel' - fuel)
    decreases fuel
  {
    if fuel > 0 {
      var b := step(s, idx);
      OutOfFuelIsAPrefix(step, b.value.1, b.value.0.idx, fuel - 1, fuel' - 1);
    }
  }

  /** The interpreter's run of a unit: an `Exit` reached with some fuel is reached with
      any larger fuel, in the same final state. */
  lemma {:induction false} ExecuteStableUnderMoreFuel(unit: UnitData, s: seq<Register>, fuel: nat, fuel': nat)
    requires fuel <= fuel'
    requires ExecuteSpec(unit, s, fuel).Done? && ExecuteSpec(unit, s, fuel).value.0.Exited?
    ensures ExecuteSpec(unit, s, fuel') == ExecuteSpec(unit, s, fuel)
  {
    MoreFuelSameOutcome(StepOf(unit), s, unit.entrypoint.value, fuel, fuel');
  }

  // ---------------------------------------------------------------------------
  // The library's own example

  /** Ten 64-bit registers, all zero. */
  function ZeroState(): (s: seq<Register>)
    ensures |s| == 10 && forall i :: 0 <= i < 10 ==> s[i] == Slot(RegisterType.I64, 0)
  {
    seq(10, _ => Slot(RegisterType.I64, 0))
  }

  /** Signed I16 addition of -3 and -4 into a 64-bit register stores -7 sign-extended,
      and the block's `Exit` ends the run. */
  lemma ItWorks()
    ensures var block := BasicBlock([
        Operation.Add(LValue.Register(0), RValue.Immediate(IntImmed.I16(0xFFFD)), RValue.Immediate(IntImmed.I16(0xFFFC)), true),
        Operation.Exit(10)]);
      var added := WithBlock(EMPTY, "main", block);
      added.Ok? && WithEntry(added.value, "main").Ok?
      && ExecuteSpec(WithEntry(added.value, "main").value, ZeroState(), 1)
         == Done((Exited, ZeroState()[0 := Slot(RegisterType.I64, TWO_64 - 7)]))
  {
    var a, b := IntImmed.I16(0xFFFD), IntImmed.I16(0xFFFC);
    var sum := AddImmed(a, b, true);
    assert sum == IntImmed.I16(0xFFF9);
    assert Flatten(sum, true) == TWO_64 - 7;
    var block := BasicBlock([
        Operation.Add(LValue.Register(0), RValue.Immediate(a), RValue.Immediate(b), true),
        Operation.Exit(10)]);
    var unit := WithEntry(WithBlock(EMPTY, "main", block).value, "main").value;
    assert unit.blocks[0] == block;
    assert unit.entrypoint == Some(0);
    var s := ZeroState();
    var s' := s[0 := Slot(RegisterType.I64, TWO_64 - 7)];
    assert AddEffect(s, LValue.Register(0), RValue.Immediate(a), RValue.Immediate(b), true) == Done(s');
    assert block.ops[1..] == [Operation.Exit(10)];
    assert BlockEffect(unit, s, block.ops) == Done((ExitAction.Exit(10), s'));
  }
}
