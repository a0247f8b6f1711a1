/** The earlier interpreter: every operand is read as a zero-extended 64-bit value,
    only `Add`, `Exit` and `Branch` are implemented, a signed add wraps in two's
    complement and an unsigned add that overflows 64 bits aborts (what `+` does in a
    debug build). Blocks are chained by the same loop as the reference interpreter's,
    `Interpret.RunWith`, with this interpreter's block step.

    As there, the functions are the specification and the methods update an
    `array<Register>` in place and are proved against them. */
module JitInterpret {
  import opened Wrappers
  import opened Types
  import opened Ops
  import opened Block
  import opened Unit
  import opened RegMap
  import opened HostState
  import Interpret

  const ADD_OVERFLOW: string := "attempt to add with overflow"

  /** `InterpreterExecutable`: a private copy of the unit; register widths are carried
      by the state's slots. */
  datatype JitExecutable = JitExecutable(unit: UnitData)

  /** `InterpreterBackend::compile_unit`: always succeeds, with a copy of the unit. */
  function CompileUnit(unit: UnitData): (r: Result<JitExecutable, string>)
    ensures r.Ok? && r.value.unit == unit
  {
    Ok(JitExecutable(unit))
  }

  // ---------------------------------------------------------------------------
  // Operands and arithmetic

  /** `rvalue_to_u64`: an immediate zero-extended (a Bool as 0 or 1), a register read at
      its own width and zero-extended; a scratch slot is unimplemented and a register
      beyond the table is an index panic. */
  function RvalueToU64(s: seq<Register>, rv: RValue): (r: Outcome<u64>)
    ensures rv.Immediate? ==> r == Done(rv.imm.ToU64())
    ensures rv.LValue? && rv.lv.Scratch? ==> r == Panic(Interpret.NOT_IMPLEMENTED)
    ensures rv.LValue? && rv.lv.Register? ==> (r.Done? <==> rv.lv.reg < |s|)
    ensures rv.LValue? && rv.lv.Register? && r.Done? ==> r.value == s[rv.lv.reg].value
    ensures rv.LValue? && rv.lv.Register? && r.Panic? ==> r.reason == Interpret.INDEX_OUT_OF_BOUNDS
  {
    match rv
    case Immediate(i) =>
      (match i
       case Bool(b) => Done(if b then 1 else 0)
       case I8(v) => Done(v)
       case I16(v) => Done(v)
       case I32(v) => Done(v)
       case I64(v) => Done(v))
    case LValue(lv) =>
      match lv
      case Register(reg) => if reg < |s| then Done(Read(s[reg])) else Panic(Interpret.INDEX_OUT_OF_BOUNDS)
      case Scratch(_) => Panic(Interpret.NOT_IMPLEMENTED)
  }

  /** `i64::wrapping_add`: the sum, brought back into range by one turn of 2^64 when it
      leaves it. */
  function WrappingAddI64(x: i64, y: i64): (r: i64)
    ensures -0x8000_0000_0000_0000 <= x + y < 0x8000_0000_0000_0000 ==> r == x + y
    ensures r == x + y || r == x + y - TWO_64 || r == x + y + TWO_64
  {
    var sum := x + y;
    if sum >= 0x8000_0000_0000_0000 then sum - TWO_64
    else if sum < -0x8000_0000_0000_0000 then sum + TWO_64
    else sum
  }

  /** The value `op_add` stores: signed, the bits of the wrapping `i64` sum, which is the
      sum modulo 2^64; unsigned, the plain sum, which aborts when it needs 65 bits. */
  function AddValue(a: u64, b: u64, signed: bool): (r: Outcome<u64>)
    ensures signed ==> r == Done((a + b) % TWO_64)
    ensures !signed ==> (r.Done? <==> a + b < TWO_64)
    ensures !signed && r.Done? ==> r.value == a + b
    ensures !signed && r.Panic? ==> r.reason == ADD_OVERFLOW
  {
    if signed then
      SignedAddWraps(a, b);
      Done(AsU64(WrappingAddI64(AsI64(a), AsI64(b))))
    else if a + b < TWO_64 then
      Done(a + b)
    else
      Panic(ADD_OVERFLOW)
  }

  /** Reading both operands as `i64`, adding with wrap-around and reading the result back
      as `u64` is addition modulo 2^64. */
  lemma {:induction false} SignedAddWraps(a: u64, b: u64)
    ensures AsU64(WrappingAddI64(AsI64(a), AsI64(b))) == (a + b) % TWO_64
  {
    var r := AsU64(WrappingAddI64(AsI64(a), AsI64(b)));
    assert AsI64(a) == a || AsI64(a) == a - TWO_64;
    assert AsI64(b) == b || AsI64(b) == b - TWO_64;
    if a + b < TWO_64 {
      assert r == a + b;
      ModUnique(a + b, TWO_64, 0, r);
    } else {
      assert r == a + b - TWO_64;
      ModUnique(a + b, TWO_64, 1, r);
    }
  }

  /** Truncating a sum already reduced modulo 2^64 to a register's width keeps the low
      bits of the full sum. */
  lemma {:induction false} LowBitsOfWrapped(n: nat, ty: RegisterType)
    requires n < 2 * TWO_64
    ensures (n % TWO_64) % ty.ToIntType().Modulus() == n % ty.ToIntType().Modulus()
  {
    var m := ty.ToIntType().Modulus();
    if n < TWO_64 {
      ModUnique(n, TWO_64, 0, n);
    } else {
      ModUnique(n, TWO_64, 1, n - TWO_64);
      var q, r := (n - TWO_64) / m, (n - TWO_64) % m;
      var k := TWO_64 / m;
      assert n == (q + k) * m + r by {
        assert n - TWO_64 == q * m + r;
        match ty
        case I8 =>
        case I16 =>
        case I32 =>
        case I64 =>
      }
      ModUnique(n, m, q + k, r);
    }
  }

  // ---------------------------------------------------------------------------
  // Operations on a state

  /** `op_add` on a state: both operands are read, the sum is formed (and may abort),
      then the destination receives its low bits; nothing else changes. */
  function AddEffect(s: seq<Register>, dest: LValue, arg1: RValue, arg2: RValue, signed: bool): (r: Outcome<seq<Register>>)
    ensures r.Done? <==>
      && RvalueToU64(s, arg1).Done? && RvalueToU64(s, arg2).Done?
      && (signed || RvalueToU64(s, arg1).value + RvalueToU64(s, arg2).value < TWO_64)
      && dest.Register? && dest.reg < |s|
    ensures r.Done? ==> |r.value| == |s| && r.value[dest.reg].ty == s[dest.reg].ty
    ensures r.Done? ==> forall i :: 0 <= i < |s| && i != dest.reg ==> r.value[i] == s[i]
    ensures r.Done? ==>
      var sum := RvalueToU64(s, arg1).value + RvalueToU64(s, arg2).value;
      r.value[dest.reg].value == sum % s[dest.reg].ty.ToIntType().Modulus()
  {
    match RvalueToU64(s, arg1)
    case Panic(m) => Panic(m)
    case Done(x) =>
      match RvalueToU64(s, arg2)
      case Panic(m) => Panic(m)
      case Done(y) =>
        match AddValue(x, y, signed)
        case Panic(m) => Panic(m)
        case Done(v) =>
          var r := Interpret.Store(s, dest, v);
          if dest.Register? && dest.reg < |s| then
            LowBitsOfWrapped(x + y, s[dest.reg].ty);
            r
          else
            r
  }

  /** `op_branch`: the same choice and the same lookup as the reference interpreter's,
      the condition being tested for zero after zero-extension. */
  function BranchTarget(unit: UnitData, s: seq<Register>, cond: RValue, taken: BlockLabel, notTaken: BlockLabel): (r: Outcome<nat>)
    ensures r == Interpret.BranchTarget(unit, s, cond, taken, notTaken)
  {
    match RvalueToU64(s, cond)
    case Panic(m) => Panic(m)
    case Done(c) =>
      var sel := if c == 0 then notTaken else taken;
      if sel in unit.labels then Done(unit.labels[sel]) else Panic(Interpret.UNWRAP_NONE)
  }

  /** `execute_block`: `Add` updates the state, `Exit` and `Branch` end the block; every
      other operation aborts, and so does running off the end. */
  function BlockEffect(unit: UnitData, s: seq<Register>, ops: seq<Operation>): (r: Outcome<(Interpret.ExitAction, seq<Register>)>)
    ensures r.Done? ==> |r.value.1| == |s|
    ensures r.Done? ==> TerminatorCount(ops) > 0
    decreases |ops|
  {
    if |ops| == 0 then Panic(Interpret.NON_TERMINATING)
    else
      var op := ops[0];
      if op.Add? then
        var e := AddEffect(s, op.dest, op.arg1, op.arg2, op.signed);
        if e.Panic? then Panic(e.reason) else BlockEffect(unit, e.value, ops[1..])
      else if op.Exit? then
        Done((Interpret.ExitAction.Exit(op.code), s))
      else if op.Branch? then
        var target := BranchTarget(unit, s, op.cond, op.taken, op.notTaken);
        if target.Panic? then Panic(target.reason) else Done((Interpret.BranchTo(target.value), s))
      else
        Panic(Interpret.UNIMPLEMENTED_OPERATION)
  }

  /** One block of `unit` by index; `blocks[idx]` panics on an index past the end. */
  function RunBlock(unit: UnitData, s: seq<Register>, idx: nat): (r: Outcome<(Interpret.ExitAction, seq<Register>)>)
    ensures idx >= |unit.blocks| ==> r == Panic(Interpret.INDEX_OUT_OF_BOUNDS)
    ensures idx < |unit.blocks| ==> r == BlockEffect(unit, s, unit.blocks[idx].ops)
  {
    if idx >= |unit.blocks| then Panic(Interpret.INDEX_OUT_OF_BOUNDS) else BlockEffect(unit, s, unit.blocks[idx].ops)
  }

  /** This interpreter's block step for `unit`. */
  function StepOf(unit: UnitData): Interpret.BlockStep {
    (s, idx) => RunBlock(unit, s, idx)
  }

  /** `execute`: a unit without an entry point aborts; otherwise the run starts there. */
  function ExecuteSpec(unit: UnitData, s: seq<Register>, fuel: nat): (r: Outcome<(Interpret.Halt, seq<Register>)>)
    ensures unit.entrypoint.None? ==> r == Panic(Interpret.UNWRAP_NONE)
    ensures unit.entrypoint.Some? ==> r == Interpret.RunWith(StepOf(unit), s, unit.entrypoint.value, fuel)
  {
    match unit.entrypoint
    case None => Panic(Interpret.UNWRAP_NONE)
    case Some(e) => Interpret.RunWith(StepOf(unit), s, e, fuel)
  }

  /** Only `Add`, `Exit` and `Branch` are implemented; `Sub` and every other operation
      abort when reached. */
  lemma {:induction false} UnimplementedOperationPanics(unit: UnitData, s: seq<Register>, ops: seq<Operation>)
    requires |ops| > 0 && !(ops[0].Add? || ops[0].Exit? || ops[0].Branch?)
    ensures BlockEffect(unit, s, ops) == Panic(Interpret.UNIMPLEMENTED_OPERATION)
  {
  }

  // ---------------------------------------------------------------------------
  // The interpreter proper

  /** `op_add` in place; an aborted add leaves the state as it was. */
  method OpAdd(state: array<Register>, dest: LValue, arg1: RValue, arg2: RValue, signed: bool) returns (r: Outcome<()>)
    modifies state
    ensures var spec := AddEffect(old(state[..]), dest, arg1, arg2, signed);
      (spec.Done? ==> r == Done(()) && state[..] == spec.value)
      && (spec.Panic? ==> r == Panic(spec.reason) && state[..] == old(state[..]))
  {
    var x := RvalueToU64(state[..], arg1);
    if x.Panic? {
      return Panic(x.reason);
    }
    var y := RvalueToU64(state[..], arg2);
    if y.Panic? {
      return Panic(y.reason);
    }
    var value := AddValue(x.value, y.value, signed);
    if value.Panic? {
      return Panic(value.reason);
    }
    match dest
    case Register(reg) =>
      if reg >= state.Length {
        return Panic(Interpret.INDEX_OUT_OF_BOUNDS);
      }
      state[reg] := Write(state[reg], value.value);
      r := Done(());
    case Scratch(_) =>
      r := Panic(Interpret.NOT_IMPLEMENTED);
  }

  method ExecuteBlock(unit: UnitData, ops: seq<Operation>, state: array<Register>) returns (r: Outcome<Interpret.ExitAction>)
    modifies state
    ensures var spec := BlockEffect(unit, old(state[..]), ops);
      (spec.Done? ==> r == Done(spec.value.0) && state[..] == spec.value.1)
      && (spec.Panic? ==> r == Panic(spec.reason))
  {
    var i := 0;
    while i < |ops|
      invariant 0 <= i <= |ops|
      invariant BlockEffect(unit, state[..], ops[i..]) == BlockEffect(unit, old(state[..]), ops)
      decreases |ops| - i
    {
      assert ops[i..][0] == ops[i] && ops[i..][1..] == ops[i + 1..];
      var op := ops[i];
      if op.Add? {
        var res := OpAdd(state, op.dest, op.arg1, op.arg2, op.signed);
        if res.Panic? {
          return Panic(res.reason);
        }
      } else if op.Exit? {
        return Done(Interpret.ExitAction.Exit(op.code));
      } else if op.Branch? {
        var target := BranchTarget(unit, state[..], op.cond, op.taken, op.notTaken);
        if target.Panic? {
          return Panic(target.reason);
        }
        return Done(Interpret.BranchTo(target.value));
      } else {
        return Panic(Interpret.UNIMPLEMENTED_OPERATION);
      }
      i := i + 1;
    }
    r := Panic(Interpret.NON_TERMINATING);
  }

  /** `Executable::execute` for this interpreter, run for at most `fuel` blocks. */
  method Execute(exec: JitExecutable, state: array<Register>, fuel: nat) returns (r: Outcome<Interpret.Halt>)
    modifies state
    ensures var spec := ExecuteSpec(exec.unit, old(state[..]), fuel);
      (spec.Done? ==> r == Done(spec.value.0) && state[..] == spec.value.1)
      && (spec.Panic? ==> r == Panic(spec.reason))
  {
    if exec.unit.entrypoint.None? {
      return Panic(Interpret.UNWRAP_NONE);
    }
    var idx: nat := exec.unit.entrypoint.value;
    var remaining: nat := fuel;
    while remaining > 0
      invariant Interpret.RunWith(StepOf(exec.unit), state[..], idx, remaining) == ExecuteSpec(exec.unit, old(state[..]), fuel)
      decreases remaining
    {
      if idx >= |exec.unit.blocks| {
        return Panic(Interpret.INDEX_OUT_OF_BOUNDS);
      }
      var action := ExecuteBlock(exec.unit, exec.unit.blocks[idx].ops, state);
      match action
      case Panic(m) =>
        return Panic(m);
      case Done(a) =>
        match a
        case Exit(_) =>
          return Done(Interpret.Exited);
        case BranchTo(next) =>
          idx, remaining := next, remaining - 1;
    }
    r := Done(Interpret.OutOfFuel(idx));
  }
}
