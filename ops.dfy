/** The closed set of IR operations. Guest memory accesses carry their access width in
    bytes; `Branch` and `Exit` are the two terminators. */
module Ops {
  import opened Types

  datatype Operation =
    | Add(dest: LValue, arg1: RValue, arg2: RValue, signed: bool)
    | Sub(dest: LValue, arg1: RValue, arg2: RValue, signed: bool)
    | Mult(dest: LValue, arg1: RValue, arg2: RValue, signed: bool)
    | Div(dest: LValue, arg1: RValue, arg2: RValue, signed: bool)
    | Rem(dest: LValue, arg1: RValue, arg2: RValue, signed: bool)
    | LShift(dest: LValue, arg1: RValue, arg2: RValue)
    | RShift(dest: LValue, arg1: RValue, arg2: RValue, signed: bool)
    | SignExtend(dest: LValue, arg1: RValue, ty: IntType)
    | ZeroExtend(dest: LValue, arg1: RValue, ty: IntType)
    | And(dest: LValue, arg1: RValue, arg2: RValue)
    | Or(dest: LValue, arg1: RValue, arg2: RValue)
    | Xor(dest: LValue, arg1: RValue, arg2: RValue)
    | Not(dest: LValue, arg1: RValue)
    | HostReadMem(dest: LValue, arg1: RValue)
    | HostWriteMem(arg1: RValue, arg2: RValue)
    | GuestReadMem(dest: LValue, arg1: RValue, width: u8)
    | GuestWriteMem(arg1: RValue, arg2: RValue, width: u8)
    | ICmp(dest: LValue, cmp: Comparator, arg1: RValue, arg2: RValue)
    | Select(cond: RValue, dest: LValue, arg1: RValue, arg2: RValue)
    | Branch(cond: RValue, taken: BlockLabel, notTaken: BlockLabel)
    | Exit(code: u8)
  {
    /** A terminator ends a basic block. */
    predicate IsTerminator() {
      Branch? || Exit?
    }
  }

  /** `InstructionStream::validate`: the stream is non-empty and its last operation is a
      terminator. */
  predicate Validate(ops: seq<Operation>) {
    if |ops| == 0 then false
    else
      match ops[|ops| - 1]
      case Branch(_, _, _) => true
      case Exit(_) => true
      case _ => false
  }

  /** No operation of the stream is a terminator. */
  predicate NoTerminator(ops: seq<Operation>) {
    forall i :: 0 <= i < |ops| ==> !ops[i].IsTerminator()
  }

  /** The number of terminators in a stream. */
  function TerminatorCount(ops: seq<Operation>): (n: nat)
    ensures n <= |ops|
  {
    if |ops| == 0 then 0
    else (if ops[0].IsTerminator() then 1 else 0) + TerminatorCount(ops[1..])
  }

  /** `validate` holds exactly of the non-empty streams ending in `Branch` or `Exit`. */
  lemma {:induction false} ValidateIff(ops: seq<Operation>)
    ensures Validate(ops) <==> |ops| > 0 && ops[|ops| - 1].IsTerminator()
  {
  }

  /** A stream without terminators counts none. */
  lemma {:induction false} NoTerminatorCountsZero(ops: seq<Operation>)
    requires NoTerminator(ops)
    ensures TerminatorCount(ops) == 0
  {
    if |ops| > 0 {
      assert !ops[0].IsTerminator();
      NoTerminatorCountsZero(ops[1..]);
    }
  }

  /** Counting distributes over appending one operation. */
  lemma {:induction false} TerminatorCountSnoc(ops: seq<Operation>, op: Operation)
    ensures TerminatorCount(ops + [op]) == TerminatorCount(ops) + (if op.IsTerminator() then 1 else 0)
  {
    if |ops| > 0 {
      assert (ops + [op])[1..] == ops[1..] + [op];
      TerminatorCountSnoc(ops[1..], op);
    }
  }

  /** A terminator-free stream followed by one terminator validates and holds exactly one
      terminator, at its end. */
  lemma {:induction false} TerminatedStreamShape(ops: seq<Operation>, t: Operation)
    requires NoTerminator(ops) && t.IsTerminator()
    ensures Validate(ops + [t])
    ensures TerminatorCount(ops + [t]) == 1
    ensures forall i :: 0 <= i < |ops| ==> !(ops + [t])[i].IsTerminator()
  {
    NoTerminatorCountsZero(ops);
    TerminatorCountSnoc(ops, t);
  }
}
