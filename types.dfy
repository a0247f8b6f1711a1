/** Typed integer immediates, their width tags and the width-conversion rules
    (`IntType`, `IntImmed`, `cast`, `upcast`) together with the operand datatypes
    `LValue`, `RValue` and `Comparator`. */
module Types {
  import opened Wrappers

  type u8 = x: int | 0 <= x < 0x100
  type u16 = x: int | 0 <= x < 0x1_0000
  type u32 = x: int | 0 <= x < 0x1_0000_0000
  type u64 = x: int | 0 <= x < 0x1_0000_0000_0000_0000
  type i64 = x: int | -0x8000_0000_0000_0000 <= x < 0x8000_0000_0000_0000

  const TWO_64: int := 0x1_0000_0000_0000_0000

  /** `x as i64` for a `u64`: the same 64 bits read in two's complement. */
  function AsI64(x: u64): (r: i64)
    ensures r % TWO_64 == x
    ensures (r < 0) == (x >= 0x8000_0000_0000_0000)
  {
    if x < 0x8000_0000_0000_0000 then x else x - TWO_64
  }

  /** `x as u64` for an `i64`: the inverse of `AsI64`, adding 2^64 to a negative value. */
  function AsU64(x: i64): (r: u64)
    ensures AsI64(r) == x
    ensures r == x || r == x + TWO_64
  {
    if x >= 0 then x else x + TWO_64
  }

  type BlockLabel = string

  /** 2^n. */
  function Pow2(n: nat): (p: nat)
    ensures p >= 1
  {
    if n == 0 then 1 else 2 * Pow2(n - 1)
  }

  /** The width tag of an immediate, independent of any value. */
  datatype IntType = Bool | I8 | I16 | I32 | I64 {

    /** Logical width in bits. */
    function Bits(): (n: nat)
      ensures n in {1, 8, 16, 32, 64}
    {
      match this
      case Bool => 1
      case I8 => 8
      case I16 => 16
      case I32 => 32
      case I64 => 64
    }

    /** The number of distinct values of the type, 2^Bits(). */
    function Modulus(): (m: nat)
      ensures m in {2, 0x100, 0x1_0000, 0x1_0000_0000, TWO_64}
      ensures Bits() == 1 <==> m == 2
    {
      match this
      case Bool => 2
      case I8 => 0x100
      case I16 => 0x1_0000
      case I32 => 0x1_0000_0000
      case I64 => TWO_64
    }

    /** `from_u8` ... `from_u64` and `from_u8_signed` ... `from_u64_signed`: Bool means
        "nonzero", every other type keeps the low `Bits()` bits of the two's-complement
        pattern of `v` (`v as u8`, `v as i8 as u8`, ...). Both macros are this one function:
        with unbounded integers they differ only in the range of their argument. */
    function FromInt(v: int): (r: IntImmed)
      ensures r.GetType() == this
      ensures Bool? ==> r == IntImmed.Bool(v != 0)
      ensures !Bool? ==> r.ToU64() == v % Modulus()
    {
      match this
      case Bool => IntImmed.Bool(v != 0)
      case I8 => IntImmed.I8(v % 0x100)
      case I16 => IntImmed.I16(v % 0x1_0000)
      case I32 => IntImmed.I32(v % 0x1_0000_0000)
      case I64 => IntImmed.I64(v % TWO_64)
    }
  }

  /** Multiplying powers of two adds their exponents. */
  lemma {:induction false} Pow2Add(n: nat, k: nat)
    ensures Pow2(n + k) == Pow2(n) * Pow2(k)
    decreases k
  {
    if k > 0 {
      Pow2Add(n, k - 1);
      assert Pow2(n + k) == 2 * Pow2(n + (k - 1));
    }
  }

  /** Each type tag has 2^Bits() values. */
  lemma {:induction false} ModulusIsPow2(t: IntType)
    ensures t.Modulus() == Pow2(t.Bits())
  {
    assert Pow2(1) == 2;
    assert Pow2(4) == 16 by { assert Pow2(2) == 4; assert Pow2(3) == 8; }
    assert Pow2(8) == 0x100 by { Pow2Add(4, 4); }
    assert Pow2(16) == 0x1_0000 by { Pow2Add(8, 8); }
    assert Pow2(32) == 0x1_0000_0000 by { Pow2Add(16, 16); }
    assert Pow2(64) == TWO_64 by { Pow2Add(32, 32); }
  }

  /** Result of `upcast_zip`: two values of one common variant. */
  datatype ZippedIntImmed =
    | Bool(b1: bool, b2: bool)
    | I8(x8: u8, y8: u8)
    | I16(x16: u16, y16: u16)
    | I32(x32: u32, y32: u32)
    | I64(x64: u64, y64: u64)

  /** A typed integer value, stored zero-extended in its host word. */
  datatype IntImmed = Bool(b: bool) | I8(v8: u8) | I16(v16: u16) | I32(v32: u32) | I64(v64: u64) {

    function MaybeBool(): (r: Option<bool>)
      ensures r.Some? <==> Bool?
    {
      match this
      case Bool(v) => Some(v)
      case _ => None
    }

    function MaybeU8(): (r: Option<u8>)
      ensures r.Some? <==> I8?
    {
      match this
      case I8(v) => Some(v)
      case _ => None
    }

    function MaybeU16(): (r: Option<u16>)
      ensures r.Some? <==> I16?
    {
      match this
      case I16(v) => Some(v)
      case _ => None
    }

    function MaybeU32(): (r: Option<u32>)
      ensures r.Some? <==> I32?
    {
      match this
      case I32(v) => Some(v)
      case _ => None
    }

    function MaybeU64(): (r: Option<u64>)
      ensures r.Some? <==> I64?
    {
      match this
      case I64(v) => Some(v)
      case _ => None
    }

    /** The type tag naming this value's variant. */
    function GetType(): (t: IntType)
      ensures Bool? <==> t.Bool?
      ensures I8? <==> t.I8?
      ensures I16? <==> t.I16?
      ensures I32? <==> t.I32?
      ensures I64? <==> t.I64?
    {
      match this
      case Bool(_) => IntType.Bool
      case I8(_) => IntType.I8
      case I16(_) => IntType.I16
      case I32(_) => IntType.I32
      case I64(_) => IntType.I64
    }

    /** Width in bits: 1 for Bool, otherwise the variant's width. */
    function Size(): (n: u8)
      ensures n == GetType().Bits()
    {
      match this
      case Bool(_) => 1
      case I8(_) => 8
      case I16(_) => 16
      case I32(_) => 32
      case I64(_) => 64
    }

    /** Zero-extending flattening. */
    function ToU64(): (r: u64)
      ensures r < GetType().Modulus()
      ensures Bool? ==> r == (if b then 1 else 0)
    {
      match this
      case Bool(v) => if v then 1 else 0
      case I8(i) => i
      case I16(i) => i
      case I32(i) => i
      case I64(i) => i
    }

    /** Sign-extending flattening (`i as i8 as i64`, ...): a value whose top bit is set
        stands for itself minus the modulus. Bool gives 0 or 1. */
    function ToI64(): (r: i64)
      ensures Bool? ==> r == ToU64()
      ensures !Bool? ==> -(GetType().Modulus() / 2) <= r < GetType().Modulus() / 2
      ensures r % GetType().Modulus() == ToU64()
    {
      var u, m := ToU64(), GetType().Modulus();
      if Bool? || u < m / 2 then
        ModUnique(u, m, 0, u);
        u
      else
        ModUnique(u - m, m, -1, u);
        u - m
    }

    /** Reinterprets the value at type `ty`: the signed branch feeds the sign-extended
        value (`*i as i8`, ...) to `from_uN_signed`, the unsigned branch the zero-extended
        value to `from_uN`; a Bool source counts as 1 or 0 in both. */
    function Cast(ty: IntType, signed: bool): (r: IntImmed)
      ensures r.GetType() == ty
    {
      if signed then ty.FromInt(ToI64()) else ty.FromInt(ToU64())
    }

    /** Brings two values to the wider of their two types. The wider input is returned
        first, as it is, and the narrower one cast to its type second, so when `first`
        is the narrower one the pair comes back swapped. */
    static function Upcast(first: IntImmed, second: IntImmed, signed: bool): (r: (IntImmed, IntImmed))
      ensures r.0.GetType() == r.1.GetType()
      ensures r.0.Size() == if first.Size() >= second.Size() then first.Size() else second.Size()
      ensures first.Size() == second.Size() ==> r == (first, second)
      ensures first.Size() > second.Size() ==> r == (first, second.Cast(first.GetType(), signed))
      ensures first.Size() < second.Size() ==> r == (second, first.Cast(second.GetType(), signed))
    {
      if first.Size() == second.Size() then
        (first, second)
      else
        var (larger, smaller) := if first.Size() > second.Size() then (first, second) else (second, first);
        (larger, smaller.Cast(larger.GetType(), signed))
    }

    /** `upcast` followed by pairing the two values under their common variant. Every
        `.value` below is the source's `unwrap()`: Dafny proves each one succeeds. */
    static function UpcastZip(first: IntImmed, second: IntImmed, signed: bool): (z: ZippedIntImmed)
      ensures var (l, s) := Upcast(first, second, signed);
        match z
        case Bool(x, y) => l == IntImmed.Bool(x) && s == IntImmed.Bool(y)
        case I8(x, y) => l == IntImmed.I8(x) && s == IntImmed.I8(y)
        case I16(x, y) => l == IntImmed.I16(x) && s == IntImmed.I16(y)
        case I32(x, y) => l == IntImmed.I32(x) && s == IntImmed.I32(y)
        case I64(x, y) => l == IntImmed.I64(x) && s == IntImmed.I64(y)
    {
      var (larger, smaller) := Upcast(first, second, signed);
      match larger
      case Bool(b) => ZippedIntImmed.Bool(b, smaller.MaybeBool().value)
      case I8(v) => ZippedIntImmed.I8(v, smaller.MaybeU8().value)
      case I16(v) => ZippedIntImmed.I16(v, smaller.MaybeU16().value)
      case I32(v) => ZippedIntImmed.I32(v, smaller.MaybeU32().value)
      case I64(v) => ZippedIntImmed.I64(v, smaller.MaybeU64().value)
    }
  }

  datatype LValue = Register(reg: u8) | Scratch(slot: u8)

  datatype RValue = LValue(lv: LValue) | Immediate(imm: IntImmed)

  datatype Comparator = EQ | NEQ | SLT | SGT | ULT | UGT

  // ---------------------------------------------------------------------------
  // Properties of the value model

  /** `size()` and `get_type()` agree with the variant. */
  lemma {:induction false} SizeTable(x: IntImmed)
    ensures x.Bool? ==> x.Size() == 1 && x.GetType() == IntType.Bool
    ensures x.I8? ==> x.Size() == 8 && x.GetType() == IntType.I8
    ensures x.I16? ==> x.Size() == 16 && x.GetType() == IntType.I16
    ensures x.I32? ==> x.Size() == 32 && x.GetType() == IntType.I32
    ensures x.I64? ==> x.Size() == 64 && x.GetType() == IntType.I64
  {
  }

  /** Casting to the value's own type changes nothing, whichever signedness is asked for. */
  lemma {:induction false} CastToOwnTypeIsIdentity(x: IntImmed, signed: bool)
    ensures x.Cast(x.GetType(), signed) == x
  {
  }

  /** Casting to Bool tests the whole value against zero, not only its low bit. */
  lemma {:induction false} CastToBoolIsNonzero(x: IntImmed, signed: bool)
    ensures x.Cast(IntType.Bool, signed) == IntImmed.Bool(x.ToU64() != 0)
  {
  }

  /** Narrowing to a non-Bool type keeps the low bits, and the signedness flag makes no
      difference. */
  lemma {:induction false} CastNarrowKeepsLowBits(x: IntImmed, ty: IntType, signed: bool)
    requires !ty.Bool? && ty.Bits() <= x.Size()
    ensures x.Cast(ty, signed).ToU64() == x.ToU64() % ty.Modulus()
    ensures x.Cast(ty, signed) == x.Cast(ty, !signed)
  {
    SignedAgreesModNarrower(x, ty);
    ToU64Determines(x.Cast(ty, signed), x.Cast(ty, !signed));
  }

  /** The sign-extended and the zero-extended readings of `x` agree modulo any narrower
      width. */
  lemma {:induction false} SignedAgreesModNarrower(x: IntImmed, ty: IntType)
    requires !ty.Bool? && ty.Bits() <= x.Size()
    ensures x.ToI64() % ty.Modulus() == x.ToU64() % ty.Modulus()
  {
    var u := x.ToU64();
    var big := x.GetType().Modulus();
    var m := ty.Modulus();
    if x.ToI64() != u {
      var k := big / m;
      assert big == k * m by {
        match x
        case I8(_) =>
        case I16(_) =>
        case I32(_) =>
        case I64(_) =>
      }
      ModUnique(u - big, m, u / m - k, u % m);
    }
  }

  /** Quotient and remainder are unique. */
  lemma ModUnique(n: int, m: int, q: int, r: int)
    requires m > 0 && 0 <= r < m && n == q * m + r
    ensures n % m == r
  {
    var q2 := n / m;
    assert n == q2 * m + n % m;
    if q2 > q {
      MulAtLeast(q2 - q, m);
    } else if q2 < q {
      MulAtLeast(q - q2, m);
    }
  }

  lemma MulAtLeast(a: int, m: int)
    requires a >= 1 && m > 0
    ensures a * m >= m
  {
  }

  /** Widening without sign zero-extends. */
  lemma {:induction false} CastWidenUnsignedZeroExtends(x: IntImmed, ty: IntType)
    requires x.Size() <= ty.Bits()
    ensures x.Cast(ty, false).ToU64() == x.ToU64()
  {
  }

  /** Widening with sign sign-extends: the signed reading is preserved. */
  lemma {:induction false} CastWidenSignedSignExtends(x: IntImmed, ty: IntType)
    requires x.Size() <= ty.Bits()
    ensures x.Cast(ty, true).ToI64() == x.ToI64()
  {
    if !ty.Bool? {
      var v, m := x.ToI64(), ty.Modulus();
      assert -(m / 2) <= v < m / 2 by {
        match x
        case Bool(_) =>
        case I8(_) =>
        case I16(_) =>
        case I32(_) =>
        case I64(_) =>
      }
      var w := x.Cast(ty, true);
      if v >= 0 {
        ModUnique(v, m, 0, v);
        assert w.ToU64() == v;
      } else {
        ModUnique(v, m, -1, v + m);
        assert w.ToU64() == v + m;
      }
      SignedReadingOfLowBits(w, v);
    }
  }

  /** A non-Bool value whose bits are those of `v`, for `v` in the type's signed range,
      reads back as `v`. */
  lemma {:induction false} SignedReadingOfLowBits(w: IntImmed, v: int)
    requires !w.Bool?
    requires -(w.GetType().Modulus() / 2) <= v < w.GetType().Modulus() / 2
    requires w.ToU64() == if v >= 0 then v else v + w.GetType().Modulus()
    ensures w.ToI64() == v
  {
  }

  /** Widening and narrowing back with the same signedness restores the value. */
  lemma {:induction false} CastRoundTrip(x: IntImmed, ty: IntType, signed: bool)
    requires x.Size() <= ty.Bits()
    ensures x.Cast(ty, signed).Cast(x.GetType(), signed) == x
  {
    if x.Bool? {
      CastToBoolIsNonzero(x.Cast(ty, signed), signed);
    } else {
      var w := x.Cast(ty, signed);
      var back := w.Cast(x.GetType(), signed);
      CastNarrowKeepsLowBits(w, x.GetType(), signed);
      if signed {
        CastWidenSignedSignExtends(x, ty);
        SignedAgreesModNarrower(w, x.GetType());
      } else {
        CastWidenUnsignedZeroExtends(x, ty);
      }
      LowBitsOfOwnWidth(x, w, back);
      ToU64Determines(back, x);
    }
  }

  /** The step that closes the round trip: `back` holds the low bits of `w`, and those
      agree with `x` modulo its width. */
  lemma {:induction false} LowBitsOfOwnWidth(x: IntImmed, w: IntImmed, back: IntImmed)
    requires !x.Bool?
    requires back.ToU64() == w.ToU64() % x.GetType().Modulus()
    requires w.ToU64() % x.GetType().Modulus() == x.ToU64() % x.GetType().Modulus()
      || w.ToU64() % x.GetType().Modulus() == x.ToI64() % x.GetType().Modulus()
    ensures back.ToU64() == x.ToU64()
  {
  }

  /** Two values of the same type with the same flattening are equal. */
  lemma {:induction false} ToU64Determines(x: IntImmed, y: IntImmed)
    requires x.GetType() == y.GetType() && x.ToU64() == y.ToU64()
    ensures x == y
  {
  }

  /** Equal widths come back unchanged; otherwise the pair is (wider, cast(narrower)), so a
      narrower `first` is returned in second position. */
  lemma {:induction false} UpcastSwapsNarrowFirst(first: IntImmed, second: IntImmed, signed: bool)
    requires first.Size() < second.Size()
    ensures IntImmed.Upcast(first, second, signed) == (second, first.Cast(second.GetType(), signed))
  {
  }

  /** The common width does not depend on the order of the operands. */
  lemma {:induction false} UpcastWidthCommutes(a: IntImmed, b: IntImmed, signed: bool)
    ensures IntImmed.Upcast(a, b, signed).0.GetType() == IntImmed.Upcast(b, a, signed).0.GetType()
  {
    if a.Size() == b.Size() {
      SameSizeSameType(a, b);
    }
  }

  /** Size identifies the variant. */
  lemma {:induction false} SameSizeSameType(a: IntImmed, b: IntImmed)
    requires a.Size() == b.Size()
    ensures a.GetType() == b.GetType()
  {
  }
}
