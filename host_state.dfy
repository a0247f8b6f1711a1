/** The live host state the interpreters run against, seen as a sequence of register
    slots: each has a width and holds a value that fits it. A slot's index stands for its
    byte offset. */
module HostState {
  import opened Types
  import opened RegMap

  datatype Slot = Slot(ty: RegisterType, value: nat)

  /** A register: a slot whose value fits its width (the safety contract between the
      register table and the state type, kept by the type itself). */
  type Register = r: Slot | r.value < r.ty.ToIntType().Modulus() witness Slot(RegisterType.I8, 0)

  /** A register read: the slot at its own width, zero-extended to 64 bits. */
  function Read(reg: Register): (v: u64)
    ensures v == reg.value && v < reg.ty.ToIntType().Modulus()
  {
    reg.value
  }

  /** A register read as an immediate of the register's width. */
  function ReadImmed(reg: Register): (x: IntImmed)
    ensures x.GetType() == reg.ty.ToIntType() && x.ToU64() == reg.value
  {
    match reg.ty
    case I8 => IntImmed.I8(reg.value)
    case I16 => IntImmed.I16(reg.value)
    case I32 => IntImmed.I32(reg.value)
    case I64 => IntImmed.I64(reg.value)
  }

  /** A register write: the 64-bit value truncated to the slot's width (`value as u8`, ...). */
  function Write(reg: Register, value: u64): (r: Register)
    ensures r.ty == reg.ty
    ensures r.value == value % reg.ty.ToIntType().Modulus()
  {
    match reg.ty
    case I8 => Slot(reg.ty, value % 0x100)
    case I16 => Slot(reg.ty, value % 0x1_0000)
    case I32 => Slot(reg.ty, value % 0x1_0000_0000)
    case I64 => Slot(reg.ty, value)
  }

  /** Writing keeps the low bits of the value and drops the rest: reading back gives the
      value modulo the slot's width, and a value that fits comes back unchanged. */
  lemma {:induction false} ReadAfterWrite(reg: Register, value: u64)
    ensures Read(Write(reg, value)) == value % reg.ty.ToIntType().Modulus()
    ensures value < reg.ty.ToIntType().Modulus() ==> Read(Write(reg, value)) == value
  {
  }
}
