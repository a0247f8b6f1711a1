/** How the earlier interpreter relates to the reference one. On a state of 64-bit
    registers, with signed additions of 64-bit operands, the two run every unit alike;
    they part ways on narrow signed operands (zero- against sign-extension), on unsigned
    overflow (abort against wrap-around) and on `Sub` (unimplemented against
    implemented). */
module InterpretersAgree {
  import opened Wrappers
  import opened Types
  import opened Ops
  import opened Block
  import opened Unit
  import opened RegMap
  import opened HostState
  import Interpret
  import JitInterpret
  import InterpretProps

  // ---------------------------------------------------------------------------
  // Operands and sums

  /** Both interpreters read an operand alike: the same panics, and the zero-extended
      value of the immediate the reference interpreter reads. */
  lemma {:induction false} ReadsAgree(s: seq<Register>, rv: RValue)
    ensures JitInterpret.RvalueToU64(s, rv).Done? <==> Interpret.RvToImmed(s, rv).Done?
    ensures JitInterpret.RvalueToU64(s, rv).Done? ==>
      JitInterpret.RvalueToU64(s, rv).value == Interpret.RvToImmed(s, rv).value.ToU64()
    ensures JitInterpret.RvalueToU64(s, rv).Panic? ==>
      JitInterpret.RvalueToU64(s, rv).reason == Interpret.RvToImmed(s, rv).reason
  {
  }

  /** Without overflow, the signed and the unsigned sum are the same value. */
  lemma {:induction false} SignedUnsignedAgree(a: u64, b: u64)
    requires a + b < TWO_64
    ensures JitInterpret.AddValue(a, b, true) == JitInterpret.AddValue(a, b, false)
  {
    ModUnique(a + b, TWO_64, 0, a + b);
  }

  /** On 64-bit operands the signed sum is the reference interpreter's: the `I64` sum,
      sign-extended to 64 bits, which is itself. */
  lemma {:induction false} Sum64Agrees(a: u64, b: u64)
    ensures JitInterpret.AddValue(a, b, true).value
         == Interpret.Flatten(Interpret.AddImmed(IntImmed.I64(a), IntImmed.I64(b), true), true)
  {
    var x, y := IntImmed.I64(a), IntImmed.I64(b);
    SameSizeOrWiderIsCommonTypeBoth(x, y);
    var v := Interpret.AddImmed(x, y, true);
    var f := Interpret.Flatten(v, true);
    assert v.ToU64() == (a + b) % TWO_64;
    ModUnique(f, TWO_64, 0, f);
  }

  lemma {:induction false} SameSizeOrWiderIsCommonTypeBoth(x: IntImmed, y: IntImmed)
    requires x.I64? && y.I64?
    ensures IntImmed.Upcast(x, y, true) == (x, y)
  {
    Interpret.SameSizeOrWiderIsCommonType(x, y, true);
    CastToOwnTypeIsIdentity(y, true);
  }

  // ---------------------------------------------------------------------------
  // Whole runs on 64-bit states

  /** Every register of the state is 64 bits wide. */
  ghost predicate All64(s: seq<Register>) {
    forall i :: 0 <= i < |s| ==> s[i].ty == RegisterType.I64
  }

  /** An operand that is a 64-bit immediate or a register. */
  ghost predicate Operand64(rv: RValue) {
    rv.Immediate? ==> rv.imm.I64?
  }

  /** An operation both interpreters treat alike on a 64-bit state: anything but `Sub`,
      and an `Add` only when signed with 64-bit immediates. */
  ghost predicate Shared(op: Operation) {
    && !op.Sub?
    && (op.Add? ==> op.signed && Operand64(op.arg1) && Operand64(op.arg2))
  }

  /** On a 64-bit state the reads of a 64-bit operand are 64-bit immediates. */
  lemma {:induction false} Read64(s: seq<Register>, rv: RValue)
    requires All64(s) && Operand64(rv)
    ensures Interpret.RvToImmed(s, rv).Done? ==>
      Interpret.RvToImmed(s, rv).value == IntImmed.I64(JitInterpret.RvalueToU64(s, rv).value)
  {
    ReadsAgree(s, rv);
    var r := Interpret.RvToImmed(s, rv);
    if r.Done? {
      ToU64Determines(r.value, IntImmed.I64(JitInterpret.RvalueToU64(s, rv).value));
    }
  }

  /** A signed 64-bit `Add` on a 64-bit state has the same effect in both, and the state
      stays 64-bit. */
  lemma {:induction false} AddAgrees(s: seq<Register>, dest: LValue, arg1: RValue, arg2: RValue)
    requires All64(s) && Operand64(arg1) && Operand64(arg2)
    ensures JitInterpret.AddEffect(s, dest, arg1, arg2, true) == Interpret.AddEffect(s, dest, arg1, arg2, true)
    ensures Interpret.AddEffect(s, dest, arg1, arg2, true).Done? ==> All64(Interpret.AddEffect(s, dest, arg1, arg2, true).value)
  {
    ReadsAgree(s, arg1);
    ReadsAgree(s, arg2);
    Read64(s, arg1);
    Read64(s, arg2);
    var x, y := JitInterpret.RvalueToU64(s, arg1), JitInterpret.RvalueToU64(s, arg2);
    if x.Done? && y.Done? {
      Sum64Agrees(x.value, y.value);
    }
  }

  /** A block of shared operations ends the same way in both, from a 64-bit state, and
      leaves a 64-bit state. */
  lemma {:induction false} BlocksAgree(unit: UnitData, s: seq<Register>, ops: seq<Operation>)
    requires All64(s) && forall i :: 0 <= i < |ops| ==> Shared(ops[i])
    ensures JitInterpret.BlockEffect(unit, s, ops) == Interpret.BlockEffect(unit, s, ops)
    ensures Interpret.BlockEffect(unit, s, ops).Done? ==> All64(Interpret.BlockEffect(unit, s, ops).value.1)
    decreases |ops|
  {
    if |ops| > 0 {
      var op := ops[0];
      assert Shared(op);
      assert forall i :: 0 <= i < |ops[1..]| ==> Shared(ops[1..][i]) by {
        forall i | 0 <= i < |ops[1..]| ensures Shared(ops[1..][i]) {
          assert ops[1..][i] == ops[i + 1];
        }
      }
      if op.Add? {
        AddAgrees(s, op.dest, op.arg1, op.arg2);
        var e := Interpret.AddEffect(s, op.dest, op.arg1, op.arg2, true);
        if e.Done? {
          BlocksAgree(unit, e.value, ops[1..]);
        }
      } else if op.Branch? {
        assert JitInterpret.BranchTarget(unit, s, op.cond, op.taken, op.notTaken) == Interpret.BranchTarget(unit, s, op.cond, op.taken, op.notTaken);
      }
    }
  }

  /** Every block of the unit is made of shared operations. */
  ghost predicate SharedUnit(unit: UnitData) {
    forall b, i :: 0 <= b < |unit.blocks| && 0 <= i < |unit.blocks[b].ops| ==> Shared(unit.blocks[b].ops[i])
  }

  /** Two block steps that agree on 64-bit states, and keep states 64-bit, give the same
      runs from a 64-bit state. */
  lemma {:induction false} StepsAgree(f: Interpret.BlockStep, g: Interpret.BlockStep, s: seq<Register>, idx: nat, fuel: nat)
    requires All64(s)
    requires forall t: seq<Register>, i: nat {:trigger g(t, i)} :: All64(t) ==> f(t, i) == g(t, i)
    requires forall t: seq<Register>, i: nat {:trigger g(t, i)} :: All64(t) && g(t, i).Done? ==> All64(g(t, i).value.1)
    ensures Interpret.RunWith(f, s, idx, fuel) == Interpret.RunWith(g, s, idx, fuel)
    decreases fuel
  {
    if fuel > 0 {
      var b := g(s, idx);
      if b.Done? && b.value.0.BranchTo? {
        StepsAgree(f, g, b.value.1, b.value.0.idx, fuel - 1);
      }
    }
  }

  /** The two block steps agree on 64-bit states of a unit of shared operations. */
  lemma {:induction false} BlockStepsAgree(unit: UnitData)
    requires SharedUnit(unit)
    ensures forall t: seq<Register>, i: nat {:trigger Interpret.StepOf(unit)(t, i)} :: All64(t) ==>
      JitInterpret.StepOf(unit)(t, i) == Interpret.StepOf(unit)(t, i)
    ensures forall t: seq<Register>, i: nat {:trigger Interpret.StepOf(unit)(t, i)} :: All64(t) && Interpret.StepOf(unit)(t, i).Done? ==>
      All64(Interpret.StepOf(unit)(t, i).value.1)
  {
    forall t: seq<Register>, i: nat | All64(t) && i < |unit.blocks|
      ensures JitInterpret.BlockEffect(unit, t, unit.blocks[i].ops) == Interpret.BlockEffect(unit, t, unit.blocks[i].ops)
      ensures Interpret.BlockEffect(unit, t, unit.blocks[i].ops).Done? ==> All64(Interpret.BlockEffect(unit, t, unit.blocks[i].ops).value.1)
    {
      BlocksAgree(unit, t, unit.blocks[i].ops);
    }
  }

  /** The two interpreters run a unit of shared operations on a 64-bit state to the same
      outcome and the same final state. */
  lemma {:induction false} ExecutionsAgree(unit: UnitData, s: seq<Register>, fuel: nat)
    requires SharedUnit(unit) && All64(s)
    ensures JitInterpret.ExecuteSpec(unit, s, fuel) == Interpret.ExecuteSpec(unit, s, fuel)
  {
    if unit.entrypoint.Some? {
      BlockStepsAgree(unit);
      StepsAgree(JitInterpret.StepOf(unit), Interpret.StepOf(unit), s, unit.entrypoint.value, fuel);
    }
  }

  // ---------------------------------------------------------------------------
  // Where they differ

  /** Signed addition of I16 -3 and -4 into a 64-bit register: the earlier interpreter
      adds the zero-extended operands and stores 0x1FFF9; the reference interpreter stores
      -7 sign-extended. */
  lemma NarrowSignedAddDiffers()
    ensures var s, a, b := InterpretProps.ZeroState(), RValue.Immediate(IntImmed.I16(0xFFFD)), RValue.Immediate(IntImmed.I16(0xFFFC));
      && JitInterpret.AddEffect(s, LValue.Register(0), a, b, true) == Done(s[0 := Slot(RegisterType.I64, 0x1FFF9)])
      && Interpret.AddEffect(s, LValue.Register(0), a, b, true) == Done(s[0 := Slot(RegisterType.I64, TWO_64 - 7)])
  {
    var a, b := IntImmed.I16(0xFFFD), IntImmed.I16(0xFFFC);
    assert Interpret.AddImmed(a, b, true) == IntImmed.I16(0xFFF9);
    assert Interpret.Flatten(IntImmed.I16(0xFFF9), true) == TWO_64 - 7;
  }

  /** Unsigned addition past 2^64 aborts in the earlier interpreter and wraps to zero in
      the reference one. */
  lemma UnsignedOverflowDiffers()
    ensures var s, a, b := InterpretProps.ZeroState(), RValue.Immediate(IntImmed.I64(TWO_64 - 1)), RValue.Immediate(IntImmed.I64(1));
      && JitInterpret.AddEffect(s, LValue.Register(0), a, b, false) == Panic(JitInterpret.ADD_OVERFLOW)
      && Interpret.AddEffect(s, LValue.Register(0), a, b, false) == Done(s)
  {
    var s := InterpretProps.ZeroState();
    var a, b := IntImmed.I64(TWO_64 - 1), IntImmed.I64(1);
    SameSizeOrWiderIsCommonTypeBoth(a, b);
    assert Interpret.AddImmed(a, b, false) == IntImmed.I64(0);
    assert s[0 := Slot(RegisterType.I64, 0)] == s;
  }
}
