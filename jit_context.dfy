/** The earliest front end: a context holding a 256-entry register table for a state
    type of a fixed size, and translation units bound to a context. A table entry maps a
    register to a byte offset inside the state; every mapped offset lies inside it. */
module JitContext {
  import opened Wrappers
  import opened Types
  import opened HostState

  /** Where a register lives: a byte offset into the state. */
  datatype RegisterMapping = RegisterMapping(offset: nat)

  /** A compiled unit's handle: the state it was compiled for. */
  datatype CompiledUnitHandle = CompiledUnitHandle(state: seq<Register>)

  /** One decimal digit. */
  function Digit(d: nat): (c: char)
    requires d < 10
    ensures '0' <= c <= '9' && c as int - '0' as int == d
  {
    (d + '0' as int) as char
  }

  /** `{}` formatting of an unsigned integer: its decimal digits, most significant first,
      without leading zeros. */
  function Decimal(n: nat): (s: string)
    ensures 1 <= |s| && forall i :: 0 <= i < |s| ==> '0' <= s[i] <= '9'
    ensures n > 0 ==> s[0] != '0'
    decreases n
  {
    if n < 10 then [Digit(n)] else Decimal(n / 10) + [Digit(n % 10)]
  }

  /** The number a string of decimal digits spells. */
  function DecimalValue(s: string): (n: nat)
    requires forall i :: 0 <= i < |s| ==> '0' <= s[i] <= '9'
    decreases |s|
  {
    if |s| == 0 then 0 else DecimalValue(s[..|s| - 1]) * 10 + (s[|s| - 1] as int - '0' as int)
  }

  /** The digits read back as the number they were written from. */
  lemma {:induction false} DecimalRoundTrip(n: nat)
    ensures DecimalValue(Decimal(n)) == n
    decreases n
  {
    var s := Decimal(n);
    if n >= 10 {
      assert s[..|s| - 1] == Decimal(n / 10);
      DecimalRoundTrip(n / 10);
    }
  }

  /** The panic message of `map_register` for an offset outside the state. */
  function OffsetTooLarge(offset: nat): string {
    "Offset " + Decimal(offset) + " is greater than size of state type"
  }

  class Context {
    /** `size_of::<T>()` of the state type. */
    const stateSize: nat
    /** `reg_map`: one optional mapping per register number. */
    const regMap: array<Option<RegisterMapping>>

    /** The table has an entry for every `u8` register, and every mapped offset lies
        inside the state. */
    ghost predicate Valid()
      reads this, regMap
    {
      && regMap.Length == 256
      && forall i :: 0 <= i < 256 && regMap[i].Some? ==> regMap[i].value.offset < stateSize
    }

    /** `Context::default()` for a state of `stateSize` bytes: no register is mapped. */
    constructor (stateSize: nat)
      ensures Valid() && fresh(regMap) && this.stateSize == stateSize
      ensures forall i :: 0 <= i < 256 ==> regMap[i].None?
    {
      this.stateSize := stateSize;
      regMap := new Option<RegisterMapping>[256](_ => None);
    }

    /** `map_register`: an offset outside the state aborts; otherwise the register now
        maps to it and every other entry is unchanged. */
    method MapRegister(register: u8, offset: nat) returns (r: Outcome<()>)
      requires Valid()
      modifies regMap
      ensures Valid()
      ensures offset >= stateSize ==> r == Panic(OffsetTooLarge(offset)) && regMap[..] == old(regMap[..])
      ensures offset < stateSize ==>
        r == Done(()) && regMap[..] == old(regMap[..])[register := Some(RegisterMapping(offset))]
    {
      if offset >= stateSize {
        return Panic(OffsetTooLarge(offset));
      }
      regMap[register] := Some(RegisterMapping(offset));
      r := Done(());
    }

    /** `new_unit`: a unit bound to this context, not yet compiled. */
    method NewUnit() returns (u: TranslationUnit)
      ensures fresh(u) && u.context == this && u.compiled.None?
    {
      u := new TranslationUnit(this);
    }
  }

  class TranslationUnit {
    const context: Context
    var compiled: Option<CompiledUnitHandle>

    constructor (context: Context)
      ensures this.context == context && compiled.None?
    {
      this.context := context;
      compiled := None;
    }
  }
}
