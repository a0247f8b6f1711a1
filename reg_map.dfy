/** Register widths and the offset arithmetic for a host state that is a plain array
    `[T; N]` of one integer type. */
module RegMap {
  import opened Wrappers
  import opened Types

  /** The width of a register slot in the host state. */
  datatype RegisterType = I8 | I16 | I32 | I64 {
    /** The immediate type a read of this register produces. */
    function ToIntType(): (t: IntType)
      ensures !t.Bool?
    {
      match this
      case I8 => IntType.I8
      case I16 => IntType.I16
      case I32 => IntType.I32
      case I64 => IntType.I64
    }
  }

  /** The element types that implement `AsRegister`: `u8`, `u16`, `u32`, `u64`. */
  datatype HostInt = U8 | U16 | U32 | U64

  /** `size_of::<T>()` in bytes. */
  function SizeOf(t: HostInt): (n: nat)
    ensures n in {1, 2, 4, 8}
  {
    match t
    case U8 => 1
    case U16 => 2
    case U32 => 4
    case U64 => 8
  }

  /** `AsRegister::to_reg_type`: a constant per type, whose width is the type's size. */
  function ToRegType(t: HostInt): (r: RegisterType)
    ensures r.ToIntType().Bits() == 8 * SizeOf(t)
  {
    match t
    case U8 => RegisterType.I8
    case U16 => RegisterType.I16
    case U32 => RegisterType.I32
    case U64 => RegisterType.I64
  }

  /** `register_offset` for `[T; N]`, as written: the guard `len >= reg` refuses every
      index up to and including `N` and accepts only indices past the end. Only the
      length of the array is an argument: the contents play no part. */
  function RegisterOffset(elem: HostInt, len: nat, reg: u8): (r: Option<(nat, RegisterType)>)
    ensures r.None? <==> reg <= len
    ensures r.Some? ==> r.value.0 % SizeOf(elem) == 0 && r.value.0 / SizeOf(elem) == reg
    ensures r.Some? ==> r.value.1 == ToRegType(elem)
  {
    if len >= reg then None else Some((SizeOf(elem) * reg, ToRegType(elem)))
  }

  /** The guard as written rejects the first register of a ten-slot `u64` state and
      accepts register 11, whose eight bytes start past the array's 80. */
  lemma RegisterOffsetGuardInverted()
    ensures RegisterOffset(HostInt.U64, 10, 0) == None
    ensures RegisterOffset(HostInt.U64, 10, 11) == Some((88, RegisterType.I64))
    ensures 88 + SizeOf(HostInt.U64) > 10 * SizeOf(HostInt.U64)
  {
  }

  /** `register_offset` with the bounds test the trait evidently intends: an index is
      resolved exactly when it is inside the array, and then its bytes lie inside it. */
  function RegisterOffsetInBounds(elem: HostInt, len: nat, reg: u8): (r: Option<(nat, RegisterType)>)
    ensures r.Some? <==> reg < len
    ensures r.Some? ==> r.value.0 % SizeOf(elem) == 0 && r.value.0 + SizeOf(elem) <= len * SizeOf(elem)
    ensures r.Some? ==> r.value.1 == ToRegType(elem)
  {
    if reg >= len then None
    else
      OffsetFits(SizeOf(elem), reg, len);
      Some((SizeOf(elem) * reg, ToRegType(elem)))
  }

  lemma OffsetFits(size: nat, reg: nat, len: nat)
    requires reg < len
    ensures size * reg + size <= len * size
  {
    assert size * reg + size == size * (reg + 1);
    assert reg + 1 <= len;
  }
}
