/** The execution context: it owns a backend, compiles translation units with it and
    hands out compiled units that run against a host state.

    A compiled unit keeps its own copy of the translation unit and a weak handle to the
    executable. The handle is `executable`: `Some` while some other owner keeps the
    executable alive, `None` once it has been dropped. Neither backend keeps one: the
    only strong reference is dropped when `compile` (or `execute`) returns, so the handle
    is `None` from the start, and every `execute` compiles the unit again before it runs
    it. The context counts those compilations in `compilations`. */
module Ctx {
  import opened Wrappers
  import opened Types
  import opened Ops
  import opened Block
  import opened Unit
  import opened RegMap
  import opened HostState
  import opened Interpret
  import InterpretProps

  const NO_PLATFORM_BACKEND: string := "No platform backend available"

  /** The panic of `Result::unwrap` on an `Err` holding the string `e`. */
  function UnwrapErr(e: string): string {
    "called `Result::unwrap()` on an `Err` value: \"" + e + "\""
  }

  /** The two backends a context can own. */
  datatype Backend = InterpreterBackend | PlatformDefaultBackend

  /** `Compiler::compile_unit`: the interpreter always succeeds; there is no platform
      backend to fall back on. */
  function CompileWith(backend: Backend, unit: UnitData): (r: Result<InterpreterExecutable, string>)
    ensures backend.InterpreterBackend? ==> r.Ok? && r.value.unit == unit
    ensures backend.PlatformDefaultBackend? ==> r == Err(NO_PLATFORM_BACKEND)
  {
    match backend
    case InterpreterBackend => Interpret.CompileUnit(unit)
    case PlatformDefaultBackend => Err(NO_PLATFORM_BACKEND)
  }

  class ExecutionContext {
    const backend: Backend
    /** How many times the backend has been asked to compile a unit. */
    var compilations: nat

    /** `ExecutionContext::default()` for the given backend. */
    constructor (backend: Backend)
      ensures this.backend == backend && compilations == 0
    {
      this.backend := backend;
      compilations := 0;
    }

    /** `compile_unit`: one call to the backend. */
    method CompileUnit(unit: UnitData) returns (r: Result<InterpreterExecutable, string>)
      modifies this
      ensures r == CompileWith(backend, unit)
      ensures compilations == old(compilations) + 1
    {
      compilations := compilations + 1;
      r := CompileWith(backend, unit);
    }

    /** `compile`: the backend's error is passed on; otherwise the compiled unit holds the
        translation unit and a handle that is already dead. */
    method Compile(unit: UnitData) returns (r: Result<CompiledTranslationUnit, string>)
      modifies this
      ensures compilations == old(compilations) + 1
      ensures CompileWith(backend, unit).Err? ==> r == Err(CompileWith(backend, unit).error)
      ensures CompileWith(backend, unit).Ok? ==> r.Ok? && fresh(r.value)
      ensures r.Ok? ==> r.value.context == this && r.value.unit == unit && r.value.executable.None?
    {
      var exec := CompileUnit(unit);
      if exec.Err? {
        return Err(exec.error);
      }
      var compiled := new CompiledTranslationUnit(this, unit);
      r := Ok(compiled);
    }
  }

  class CompiledTranslationUnit {
    const context: ExecutionContext
    const unit: UnitData
    /** The weak handle, as what upgrading it gives. */
    var executable: Option<InterpreterExecutable>

    /** A handle that was alive came from compiling this very unit. */
    ghost predicate Valid()
      reads this
    {
      executable.Some? ==> executable.value.unit == unit
    }

    constructor (context: ExecutionContext, unit: UnitData)
      ensures this.context == context && this.unit == unit && executable.None? && Valid()
    {
      this.context := context;
      this.unit := unit;
      executable := None;
    }

    /** `execute`, for at most `fuel` blocks: a live executable runs as it is; otherwise
        the unit is compiled again (a backend error aborts), and the new executable runs.
        The handle is left as it was: a fresh executable dies when `execute` returns. */
    method Execute(state: array<Register>, fuel: nat) returns (r: Outcome<Halt>)
      requires Valid()
      modifies context, state
      ensures Valid() && executable == old(executable)
      ensures context.compilations == old(context.compilations) + (if executable.None? then 1 else 0)
      ensures executable.None? && CompileWith(context.backend, unit).Err? ==>
        r == Panic(UnwrapErr(CompileWith(context.backend, unit).error)) && state[..] == old(state[..])
      ensures executable.Some? || CompileWith(context.backend, unit).Ok? ==>
        var spec := ExecuteSpec(unit, old(state[..]), fuel);
        (spec.Done? ==> r == Done(spec.value.0) && state[..] == spec.value.1)
        && (spec.Panic? ==> r == Panic(spec.reason))
    {
      if executable.Some? {
        r := Interpret.Execute(executable.value, state, fuel);
      } else {
        var exec := context.CompileUnit(unit);
        if exec.Err? {
          return Panic(UnwrapErr(exec.error));
        }
        r := Interpret.Execute(exec.value, state, fuel);
      }
    }
  }

  /** The library's own example, end to end: a block adding I16 -3 and -4 as signed
      values into register 0 and exiting with 10 becomes the unit's entry `main`; the unit
      is compiled with the interpreter backend and run once on ten zeroed 64-bit
      registers. Register 0 then holds -7 sign-extended to 64 bits, and the backend was
      asked to compile the unit twice, once by `compile` and once by `execute`. */
  method ItWorks() returns (r: Outcome<Halt>, reg0: Register, compilations: nat)
    ensures r == Done(Exited)
    ensures reg0 == Slot(RegisterType.I64, TWO_64 - 7)
    ensures compilations == 2
  {
    var a, b := RValue.Immediate(IntImmed.I16(0xFFFD)), RValue.Immediate(IntImmed.I16(0xFFFC));
    var builder := new BasicBlockBuilder();
    builder.Add(LValue.Register(0), a, b, true);
    var block := builder.FinishExit(10);
    assert block == BasicBlock([Operation.Add(LValue.Register(0), a, b, true), Operation.Exit(10)]);
    var tu := new TranslationUnit();
    var added := tu.AddBasicBlock("main", block);
    var entry := tu.SetEntry("main");
    var u := tu.Data();
    InterpretProps.ItWorks();
    assert u == WithEntry(WithBlock(EMPTY, "main", block).value, "main").value;
    var zero := InterpretProps.ZeroState();
    assert ExecuteSpec(u, zero, 1) == Done((Exited, zero[0 := Slot(RegisterType.I64, TWO_64 - 7)]));
    var ctx := new ExecutionContext(InterpreterBackend);
    var compiled := ctx.Compile(u);
    var state := new Register[10](_ => Slot(RegisterType.I64, 0));
    assert state[..] == zero;
    r := compiled.value.Execute(state, 1);
    reg0, compilations := state[0], ctx.compilations;
  }
}
