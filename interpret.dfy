/** The reference interpreter: it walks a translation unit block by block, evaluating
    `Add` and `Sub` on typed immediates, following `Branch` through the label map and
    stopping at `Exit`. Every other operation aborts.

    The functions below are the specification; the methods `OpAdd`, `OpSub`,
    `ExecuteBlock` and `Execute` update an `array<Register>` in place and are proved
    against them. A Rust panic (`unimplemented!()`, an out-of-range index, an `unwrap` of
    `None`) is the `Panic` outcome. The unbounded `loop` of `execute` carries a fuel bound
    counting the blocks run. */
module Interpret {
  import opened Wrappers
  import opened Types
  import opened Ops
  import opened Block
  import opened Unit
  import opened RegMap
  import opened HostState

  const NOT_IMPLEMENTED: string := "not implemented"
  const INDEX_OUT_OF_BOUNDS: string := "index out of bounds"
  const UNWRAP_NONE: string := "called `Option::unwrap()` on a `None` value"
  const UNIMPLEMENTED_OPERATION: string := "Unimplemented operation"
  const NON_TERMINATING: string := "Non-terminating block"

  /** How a block ends: `Exit(code)` or a jump to a block index. */
  datatype ExitAction = Exit(code: u8) | BranchTo(idx: nat)

  /** How a run that does not panic ends: an `Exit` was reached, or the fuel ran out
      just before block `idx`. */
  datatype Halt = Exited | OutOfFuel(idx: nat)

  /** `InterpreterExecutable`: a private copy of the unit. Register widths are carried
      by the state's slots, which stand in for the register table. */
  datatype InterpreterExecutable = InterpreterExecutable(unit: UnitData)

  /** `InterpreterBackend::compile_unit`: always succeeds, with a copy of the unit. */
  function CompileUnit(unit: UnitData): (r: Result<InterpreterExecutable, string>)
    ensures r.Ok? && r.value.unit == unit
  {
    Ok(InterpreterExecutable(unit))
  }

  // ---------------------------------------------------------------------------
  // Operand evaluation and results

  /** `rv_to_immed`: an immediate as it is; a register read at its own width; a scratch
      slot is unimplemented, and a register beyond the table is an index panic. */
  function RvToImmed(s: seq<Register>, rv: RValue): (r: Outcome<IntImmed>)
    ensures rv.Immediate? ==> r == Done(rv.imm)
    ensures rv.LValue? && rv.lv.Scratch? ==> r == Panic(NOT_IMPLEMENTED)
    ensures rv.LValue? && rv.lv.Register? ==> (r.Done? <==> rv.lv.reg < |s|)
    ensures rv.LValue? && rv.lv.Register? && r.Done? ==>
      r.value.GetType() == s[rv.lv.reg].ty.ToIntType() && r.value.ToU64() == s[rv.lv.reg].value
  {
    match rv
    case Immediate(i) => Done(i)
    case LValue(lv) =>
      match lv
      case Register(reg) => if reg < |s| then Done(ReadImmed(s[reg])) else Panic(INDEX_OUT_OF_BOUNDS)
      case Scratch(_) => Panic(NOT_IMPLEMENTED)
  }

  /** The sum `op_add` computes before storing: both operands brought to the wider type,
      added modulo its width; two Bools give the count of `true`s as an I8. */
  function AddImmed(a: IntImmed, b: IntImmed, signed: bool): (r: IntImmed)
    ensures var (x, y) := IntImmed.Upcast(a, b, signed);
      if x.Bool? then r == IntImmed.I8(x.ToU64() + y.ToU64())
      else r.GetType() == x.GetType() && r.ToU64() == (x.ToU64() + y.ToU64()) % x.GetType().Modulus()
  {
    match IntImmed.UpcastZip(a, b, signed)
    case Bool(v1, v2) => IntImmed.I8(if v1 && v2 then 2 else if v1 || v2 then 1 else 0)
    case I8(v1, v2) => IntImmed.I8((v1 + v2) % 0x100)
    case I16(v1, v2) => IntImmed.I16((v1 + v2) % 0x1_0000)
    case I32(v1, v2) => IntImmed.I32((v1 + v2) % 0x1_0000_0000)
    case I64(v1, v2) => IntImmed.I64((v1 + v2) % TWO_64)
  }

  /** The difference `op_sub` computes before storing, as written: the pair from
      `upcast_zip` is (wider, narrower), so when the first operand is the narrower one the
      subtraction runs backwards. Two Bools give 0, 1 or 0xff. */
  function SubImmed(a: IntImmed, b: IntImmed, signed: bool): (r: IntImmed)
    ensures var (x, y) := IntImmed.Upcast(a, b, signed);
      if x.Bool? then r == IntImmed.I8((x.ToU64() - y.ToU64()) % 0x100)
      else r.GetType() == x.GetType() && r.ToU64() == (x.ToU64() - y.ToU64()) % x.GetType().Modulus()
  {
    match IntImmed.UpcastZip(a, b, signed)
    case Bool(v1, v2) => IntImmed.I8(if v1 == v2 then 0 else if v1 then 1 else 0xff)
    case I8(v1, v2) => IntImmed.I8((v1 - v2) % 0x100)
    case I16(v1, v2) => IntImmed.I16((v1 - v2) % 0x1_0000)
    case I32(v1, v2) => IntImmed.I32((v1 - v2) % 0x1_0000_0000)
    case I64(v1, v2) => IntImmed.I64((v1 - v2) % TWO_64)
  }

  /** The difference with the operand order kept: both operands are cast to the common
      type first, in order, and then subtracted. */
  function SubImmedOrdered(a: IntImmed, b: IntImmed, signed: bool): (r: IntImmed)
    ensures var t := IntImmed.Upcast(a, b, signed).0.GetType();
      r.GetType() == if t.Bool? then IntType.I8 else t
  {
    var t := IntImmed.Upcast(a, b, signed).0.GetType();
    SubImmed(a.Cast(t, signed), b.Cast(t, signed), signed)
  }

  /** Unsigned, the ordered difference is `a - b` modulo the common width, whichever
      operand is wider. */
  lemma {:induction false} SubOrderedSubtracts(a: IntImmed, b: IntImmed)
    requires !IntImmed.Upcast(a, b, false).0.Bool?
    ensures var t := IntImmed.Upcast(a, b, false).0.GetType();
      SubImmedOrdered(a, b, false).ToU64() == (a.ToU64() - b.ToU64()) % t.Modulus()
  {
    var t := IntImmed.Upcast(a, b, false).0.GetType();
    var a', b' := a.Cast(t, false), b.Cast(t, false);
    if a.Size() >= b.Size() {
      SameSizeOrWiderIsCommonType(a, b, false);
    }
    CastWidenUnsignedZeroExtends(a, t);
    CastWidenUnsignedZeroExtends(b, t);
    assert IntImmed.Upcast(a', b', false) == (a', b');
  }

  /** Signed, the ordered difference is the difference of the sign-extended readings
      modulo the common width, whichever operand is wider. */
  lemma {:induction false} SubOrderedSubtractsSigned(a: IntImmed, b: IntImmed)
    requires !IntImmed.Upcast(a, b, true).0.Bool?
    ensures var t := IntImmed.Upcast(a, b, true).0.GetType();
      SubImmedOrdered(a, b, true).ToU64() == (a.ToI64() - b.ToI64()) % t.Modulus()
  {
    var t := IntImmed.Upcast(a, b, true).0.GetType();
    var a', b' := a.Cast(t, true), b.Cast(t, true);
    if a.Size() >= b.Size() {
      SameSizeOrWiderIsCommonType(a, b, true);
    }
    CastWidenSignedSignExtends(a, t);
    CastWidenSignedSignExtends(b, t);
    assert IntImmed.Upcast(a', b', true) == (a', b');
    SubOfResidues(a'.ToI64(), b'.ToI64(), t.Modulus());
  }

  /** Two Bools are subtracted as 0 or 1 each, giving an I8: 0, 1 or 0xff. */
  lemma {:induction false} SubOrderedBools(a: IntImmed, b: IntImmed, signed: bool)
    requires a.Bool? && b.Bool?
    ensures SubImmedOrdered(a, b, signed) == IntImmed.I8((a.ToU64() - b.ToU64()) % 0x100)
  {
    CastToOwnTypeIsIdentity(a, signed);
    CastToOwnTypeIsIdentity(b, signed);
  }

  /** Subtracting residues is subtracting the numbers, modulo `m`. */
  lemma SubOfResidues(x: int, y: int, m: int)
    requires m > 0
    ensures (x % m - y % m) % m == (x - y) % m
  {
    var qx, qy, q := x / m, y / m, (x - y) / m;
    assert x % m - y % m == (x - y) - (qx - qy) * m;
    assert x % m - y % m == (q - qx + qy) * m + (x - y) % m;
    ModUnique(x % m - y % m, m, q - qx + qy, (x - y) % m);
  }

  /** When the first operand is at least as wide, the common type is its own. */
  lemma {:induction false} SameSizeOrWiderIsCommonType(a: IntImmed, b: IntImmed, signed: bool)
    requires a.Size() >= b.Size()
    ensures IntImmed.Upcast(a, b, signed).0 == a
  {
  }

  /** The 64-bit pattern that is stored: the sign-extended value for a signed operation,
      the zero-extended one otherwise. Either way its low bits are the value's own. */
  function Flatten(v: IntImmed, signed: bool): (r: u64)
    ensures !signed ==> r == v.ToU64()
    ensures signed ==> AsI64(r) == v.ToI64()
    ensures r % v.GetType().Modulus() == v.ToU64()
  {
    if signed then
      FlattenLowBits(v);
      v.ToI64() % TWO_64
    else
      v.ToU64()
  }

  /** The sign-extended pattern reads back, as an `i64`, as the value's signed reading,
      and keeps the value's low bits. */
  lemma {:induction false} FlattenLowBits(v: IntImmed)
    ensures 0 <= v.ToI64() % TWO_64 < TWO_64
    ensures AsI64(v.ToI64() % TWO_64) == v.ToI64()
    ensures (v.ToI64() % TWO_64) % v.GetType().Modulus() == v.ToU64()
  {
    var m := v.GetType().Modulus();
    var i := v.ToI64();
    if i >= 0 {
      ModUnique(i, TWO_64, 0, i);
    } else {
      ModUnique(i, TWO_64, -1, i + TWO_64);
      assert !v.Bool?;
      var u := v.ToU64();
      assert i == u - m;
      var q := TWO_64 / m - 1;
      assert u - m + TWO_64 == q * m + u by {
        match v
        case I8(_) =>
        case I16(_) =>
        case I32(_) =>
        case I64(_) =>
      }
      ModUnique(u - m + TWO_64, m, q, u);
    }
  }

  /** Writes `value` to the destination register, truncated to its width; every other
      slot keeps its contents. */
  function Store(s: seq<Register>, dest: LValue, value: u64): (r: Outcome<seq<Register>>)
    ensures dest.Scratch? ==> r == Panic(NOT_IMPLEMENTED)
    ensures dest.Register? ==> (r.Done? <==> dest.reg < |s|)
    ensures r.Done? ==> dest.Register? && dest.reg < |s| && |r.value| == |s|
    ensures r.Done? ==>
      r.value[dest.reg].ty == s[dest.reg].ty && r.value[dest.reg].value == value % s[dest.reg].ty.ToIntType().Modulus()
    ensures r.Done? ==> forall i :: 0 <= i < |s| && i != dest.reg ==> r.value[i] == s[i]
  {
    match dest
    case Register(reg) => if reg < |s| then Done(s[reg := Write(s[reg], value)]) else Panic(INDEX_OUT_OF_BOUNDS)
    case Scratch(_) => Panic(NOT_IMPLEMENTED)
  }

  /** `op_add` on a state: operands are read before anything is written; the
      destination receives the flattened sum, and nothing else changes. */
  function AddEffect(s: seq<Register>, dest: LValue, arg1: RValue, arg2: RValue, signed: bool): (r: Outcome<seq<Register>>)
    ensures r.Done? <==> RvToImmed(s, arg1).Done? && RvToImmed(s, arg2).Done? && dest.Register? && dest.reg < |s|
    ensures r.Done? ==> |r.value| == |s| && r.value[dest.reg].ty == s[dest.reg].ty
    ensures r.Done? ==> forall i :: 0 <= i < |s| && i != dest.reg ==> r.value[i] == s[i]
    ensures r.Done? ==>
      var v := Flatten(AddImmed(RvToImmed(s, arg1).value, RvToImmed(s, arg2).value, signed), signed);
      r.value[dest.reg].value == v % s[dest.reg].ty.ToIntType().Modulus()
  {
    match RvToImmed(s, arg1)
    case Panic(m) => Panic(m)
    case Done(x) =>
      match RvToImmed(s, arg2)
      case Panic(m) => Panic(m)
      case Done(y) => Store(s, dest, Flatten(AddImmed(x, y, signed), signed))
  }

  /** `op_sub` on a state, as written: the destination receives the flattened difference
      of the `upcast_zip` pair in its returned order (see `SubImmed`). */
  function SubEffect(s: seq<Register>, dest: LValue, arg1: RValue, arg2: RValue, signed: bool): (r: Outcome<seq<Register>>)
    ensures r.Done? <==> RvToImmed(s, arg1).Done? && RvToImmed(s, arg2).Done? && dest.Register? && dest.reg < |s|
    ensures r.Done? ==> |r.value| == |s| && r.value[dest.reg].ty == s[dest.reg].ty
    ensures r.Done? ==> forall i :: 0 <= i < |s| && i != dest.reg ==> r.value[i] == s[i]
    ensures r.Done? ==>
      var v := Flatten(SubImmed(RvToImmed(s, arg1).value, RvToImmed(s, arg2).value, signed), signed);
      r.value[dest.reg].value == v % s[dest.reg].ty.ToIntType().Modulus()
  {
    match RvToImmed(s, arg1)
    case Panic(m) => Panic(m)
    case Done(x) =>
      match RvToImmed(s, arg2)
      case Panic(m) => Panic(m)
      case Done(y) => Store(s, dest, Flatten(SubImmed(x, y, signed), signed))
  }

  /** `op_sub` on a state with the operand order kept: the same reads, frame and
      failures as `SubEffect`, with the ordered difference stored. */
  function SubEffectOrdered(s: seq<Register>, dest: LValue, arg1: RValue, arg2: RValue, signed: bool): (r: Outcome<seq<Register>>)
    ensures r.Done? <==> SubEffect(s, dest, arg1, arg2, signed).Done?
    ensures r.Panic? ==> r == SubEffect(s, dest, arg1, arg2, signed)
    ensures r.Done? ==> |r.value| == |s| && r.value[dest.reg].ty == s[dest.reg].ty
    ensures r.Done? ==> forall i :: 0 <= i < |s| && i != dest.reg ==> r.value[i] == s[i]
    ensures r.Done? ==>
      var v := Flatten(SubImmedOrdered(RvToImmed(s, arg1).value, RvToImmed(s, arg2).value, signed), signed);
      r.value[dest.reg].value == v % s[dest.reg].ty.ToIntType().Modulus()
  {
    match RvToImmed(s, arg1)
    case Panic(m) => Panic(m)
    case Done(x) =>
      match RvToImmed(s, arg2)
      case Panic(m) => Panic(m)
      case Done(y) => Store(s, dest, Flatten(SubImmedOrdered(x, y, signed), signed))
  }

  /** `op_branch`: a condition of zero, at any width, selects `notTaken`, anything else
      `taken`; the chosen label must be in the unit. */
  function BranchTarget(unit: UnitData, s: seq<Register>, cond: RValue, taken: BlockLabel, notTaken: BlockLabel): (r: Outcome<nat>)
    ensures RvToImmed(s, cond).Panic? ==> r == Panic(RvToImmed(s, cond).reason)
    ensures RvToImmed(s, cond).Done? ==>
      var sel := if RvToImmed(s, cond).value.ToU64() == 0 then notTaken else taken;
      (sel in unit.labels ==> r == Done(unit.labels[sel])) && (sel !in unit.labels ==> r == Panic(UNWRAP_NONE))
  {
    match RvToImmed(s, cond)
    case Panic(m) => Panic(m)
    case Done(c) =>
      var sel := if c.ToU64() == 0 then notTaken else taken;
      if sel in unit.labels then Done(unit.labels[sel]) else Panic(UNWRAP_NONE)
  }

  /** `execute_block`: operations run in order until the first terminator; an
      unimplemented operation or running off the end aborts. */
  function BlockEffect(unit: UnitData, s: seq<Register>, ops: seq<Operation>): (r: Outcome<(ExitAction, seq<Register>)>)
    ensures r.Done? ==> |r.value.1| == |s|
    ensures r.Done? ==> TerminatorCount(ops) > 0
    decreases |ops|
  {
    if |ops| == 0 then Panic(NON_TERMINATING)
    else
      var op := ops[0];
      if op.Add? then
        var e := AddEffect(s, op.dest, op.arg1, op.arg2, op.signed);
        if e.Panic? then Panic(e.reason) else BlockEffect(unit, e.value, ops[1..])
      else if op.Sub? then
        var e := SubEffect(s, op.dest, op.arg1, op.arg2, op.signed);
        if e.Panic? then Panic(e.reason) else BlockEffect(unit, e.value, ops[1..])
      else if op.Exit? then
        Done((ExitAction.Exit(op.code), s))
      else if op.Branch? then
        var target := BranchTarget(unit, s, op.cond, op.taken, op.notTaken);
        if target.Panic? then Panic(target.reason) else Done((BranchTo(target.value), s))
      else
        Panic(UNIMPLEMENTED_OPERATION)
  }

  /** What running one block from a state gives: how it ends and the state after it. */
  type BlockStep = (seq<Register>, nat) -> Outcome<(ExitAction, seq<Register>)>

  /** The `loop` of `execute` from block `idx`, for at most `fuel` blocks, with `step`
      running one block. */
  function RunWith(step: BlockStep, s: seq<Register>, idx: nat, fuel: nat): (r: Outcome<(Halt, seq<Register>)>)
    decreases fuel
  {
    if fuel == 0 then Done((OutOfFuel(idx), s))
    else
      var b := step(s, idx);
      if b.Panic? then Panic(b.reason)
      else if b.value.0.Exit? then Done((Exited, b.value.1))
      else RunWith(step, b.value.1, b.value.0.idx, fuel - 1)
  }

  /** One block of `unit` by index; `blocks[idx]` panics on an index past the end. */
  function RunBlock(unit: UnitData, s: seq<Register>, idx: nat): (r: Outcome<(ExitAction, seq<Register>)>)
    ensures idx >= |unit.blocks| ==> r == Panic(INDEX_OUT_OF_BOUNDS)
    ensures idx < |unit.blocks| ==> r == BlockEffect(unit, s, unit.blocks[idx].ops)
  {
    if idx >= |unit.blocks| then Panic(INDEX_OUT_OF_BOUNDS) else BlockEffect(unit, s, unit.blocks[idx].ops)
  }

  /** The interpreter's block step for `unit`. */
  function StepOf(unit: UnitData): BlockStep {
    (s, idx) => RunBlock(unit, s, idx)
  }

  /** `execute`: a unit without an entry point aborts; otherwise the run starts there. */
  function ExecuteSpec(unit: UnitData, s: seq<Register>, fuel: nat): (r: Outcome<(Halt, seq<Register>)>)
    ensures unit.entrypoint.None? ==> r == Panic(UNWRAP_NONE)
    ensures unit.entrypoint.Some? ==> r == RunWith(StepOf(unit), s, unit.entrypoint.value, fuel)
  {
    match unit.entrypoint
    case None => Panic(UNWRAP_NONE)
    case Some(e) => RunWith(StepOf(unit), s, e, fuel)
  }

  // ---------------------------------------------------------------------------
  // The interpreter proper: in-place updates of the state

  method OpAdd(state: array<Register>, dest: LValue, arg1: RValue, arg2: RValue, signed: bool) returns (r: Outcome<()>)
    modifies state
    ensures var spec := AddEffect(old(state[..]), dest, arg1, arg2, signed);
      (spec.Done? ==> r == Done(()) && state[..] == spec.value)
      && (spec.Panic? ==> r == Panic(spec.reason))
  {
    var x := RvToImmed(state[..], arg1);
    if x.Panic? {
      return Panic(x.reason);
    }
    var y := RvToImmed(state[..], arg2);
    if y.Panic? {
      return Panic(y.reason);
    }
    var value := Flatten(AddImmed(x.value, y.value, signed), signed);
    match dest
    case Register(reg) =>
      if reg >= state.Length {
        return Panic(INDEX_OUT_OF_BOUNDS);
      }
      state[reg] := Write(state[reg], value);
      r := Done(());
    case Scratch(_) =>
      r := Panic(NOT_IMPLEMENTED);
  }

  method OpSub(state: array<Register>, dest: LValue, arg1: RValue, arg2: RValue, signed: bool) returns (r: Outcome<()>)
    modifies state
    ensures var spec := SubEffect(old(state[..]), dest, arg1, arg2, signed);
      (spec.Done? ==> r == Done(()) && state[..] == spec.value)
      && (spec.Panic? ==> r == Panic(spec.reason))
  {
    var x := RvToImmed(state[..], arg1);
    if x.Panic? {
      return Panic(x.reason);
    }
    var y := RvToImmed(state[..], arg2);
    if y.Panic? {
      return Panic(y.reason);
    }
    var value := Flatten(SubImmed(x.value, y.value, signed), signed);
    match dest
    case Register(reg) =>
      if reg >= state.Length {
        return Panic(INDEX_OUT_OF_BOUNDS);
      }
      state[reg] := Write(state[reg], value);
      r := Done(());
    case Scratch(_) =>
      r := Panic(NOT_IMPLEMENTED);
  }

  method ExecuteBlock(unit: UnitData, ops: seq<Operation>, state: array<Register>) returns (r: Outcome<ExitAction>)
    modifies state
    ensures var spec := BlockEffect(unit, old(state[..]), ops);
      (spec.Done? ==> r == Done(spec.value.0) && state[..] == spec.value.1)
      && (spec.Panic? ==> r == Panic(spec.reason))
  {
    var i := 0;
    while i < |ops|
      invariant 0 <= i <= |ops|
      invariant BlockEffect(unit, state[..], ops[i..]) == BlockEffect(unit, old(state[..]), ops)
      decreases |ops| - i
    {
      assert ops[i..][0] == ops[i] && ops[i..][1..] == ops[i + 1..];
      var op := ops[i];
      if op.Add? {
        var res := OpAdd(state, op.dest, op.arg1, op.arg2, op.signed);
        if res.Panic? {
          return Panic(res.reason);
        }
      } else if op.Sub? {
        var res := OpSub(state, op.dest, op.arg1, op.arg2, op.signed);
        if res.Panic? {
          return Panic(res.reason);
        }
      } else if op.Exit? {
        return Done(ExitAction.Exit(op.code));
      } else if op.Branch? {
        var target := BranchTarget(unit, state[..], op.cond, op.taken, op.notTaken);
        if target.Panic? {
          return Panic(target.reason);
        }
        return Done(BranchTo(target.value));
      } else {
        return Panic(UNIMPLEMENTED_OPERATION);
      }
      i := i + 1;
    }
    r := Panic(NON_TERMINATING);
  }

  /** `Executable::execute` for the interpreter, run for at most `fuel` blocks. */
  method Execute(exec: InterpreterExecutable, state: array<Register>, fuel: nat) returns (r: Outcome<Halt>)
    modifies state
    ensures var spec := ExecuteSpec(exec.unit, old(state[..]), fuel);
      (spec.Done? ==> r == Done(spec.value.0) && state[..] == spec.value.1)
      && (spec.Panic? ==> r == Panic(spec.reason))
  {
    if exec.unit.entrypoint.None? {
      return Panic(UNWRAP_NONE);
    }
    var idx: nat := exec.unit.entrypoint.value;
    var remaining: nat := fuel;
    while remaining > 0
      invariant RunWith(StepOf(exec.unit), state[..], idx, remaining) == ExecuteSpec(exec.unit, old(state[..]), fuel)
      decreases remaining
    {
      if idx >= |exec.unit.blocks| {
        return Panic(INDEX_OUT_OF_BOUNDS);
      }
      var action := ExecuteBlock(exec.unit, exec.unit.blocks[idx].ops, state);
      match action
      case Panic(m) =>
        return Panic(m);
      case Done(a) =>
        match a
        case Exit(_) =>
          return Done(Exited);
        case BranchTo(next) =>
          idx, remaining := next, remaining - 1;
    }
    r := Done(OutOfFuel(idx));
  }
}
