/** Translation units: labelled basic blocks plus an optional entry point.
    `TranslationUnit` has the interpreter's shape (a label-to-index map, a block vector
    and an entry index); blocks enter only through `AddBasicBlock`, which rejects an
    unterminated block, and the entry only through `SetEntry`, which rejects an unknown
    label. `UnsafeTranslationUnit` keeps the label-keyed map of tagged safe and unsafe
    blocks. */
module Unit {
  import opened Wrappers
  import opened Types
  import opened Ops
  import opened Block
  import JitBlock

  const NOT_TERMINATED: string := "Block is not terminated (All basic blocks must end with a branch or exit)"

  function UnknownLabel(name: BlockLabel): string {
    "No such block " + name + " to make entrypiont"
  }

  /** The contents of a unit, as the interpreter copies it. */
  datatype UnitData = UnitData(labels: map<BlockLabel, nat>, blocks: seq<BasicBlock>, entrypoint: Option<nat>)

  /** The unit every `TranslationUnit::default()` starts as. */
  const EMPTY: UnitData := UnitData(map[], [], None)

  /** The well-formedness the two operations maintain: labels map one-to-one onto block
      positions, every block is terminated, and a set entry names an existing block. */
  ghost predicate Valid(u: UnitData) {
    && (forall l :: l in u.labels ==> u.labels[l] < |u.blocks|)
    && (forall l, l' :: l in u.labels && l' in u.labels && l != l' ==> u.labels[l] != u.labels[l'])
    && |u.labels| == |u.blocks|
    && (forall i :: 0 <= i < |u.blocks| ==> Validate(u.blocks[i].ops))
    && (u.entrypoint.Some? ==> u.entrypoint.value < |u.blocks|)
  }

  /** The block a label names, if any. */
  function Lookup(u: UnitData, name: BlockLabel): Option<BasicBlock> {
    if name in u.labels && u.labels[name] < |u.blocks| then Some(u.blocks[u.labels[name]]) else None
  }

  /** `add_basic_block`: an unterminated block is refused; otherwise the label now names
      `block` (replacing the block it named before, in place) and nothing else changes. */
  function WithBlock(u: UnitData, name: BlockLabel, block: BasicBlock): (r: Result<UnitData, string>)
    ensures !Validate(block.ops) ==> r == Err(NOT_TERMINATED)
    ensures Validate(block.ops) ==> r.Ok?
    ensures r.Ok? ==> Lookup(r.value, name) == Some(block)
    ensures r.Ok? && Valid(u) ==> forall l :: l != name ==> Lookup(r.value, l) == Lookup(u, l)
    ensures r.Ok? ==> r.value.entrypoint == u.entrypoint && |r.value.blocks| >= |u.blocks|
    ensures r.Ok? && Valid(u) ==> Valid(r.value)
  {
    if !Validate(block.ops) then
      Err(NOT_TERMINATED)
    else if name in u.labels && u.labels[name] < |u.blocks| then
      Ok(u.(blocks := u.blocks[u.labels[name] := block]))
    else
      var r := UnitData(u.labels[name := |u.blocks|], u.blocks + [block], u.entrypoint);
      assert Valid(u) ==> name !in u.labels;
      Ok(r)
  }

  /** `set_entry`: an unknown label is refused; otherwise the entry is the label's block. */
  function WithEntry(u: UnitData, name: BlockLabel): (r: Result<UnitData, string>)
    ensures name !in u.labels ==> r == Err(UnknownLabel(name))
    ensures name in u.labels ==> r == Ok(u.(entrypoint := Some(u.labels[name])))
    ensures r.Ok? && Valid(u) ==> Valid(r.value) && Lookup(u, name).Some?
  {
    if name !in u.labels then Err(UnknownLabel(name))
    else Ok(u.(entrypoint := Some(u.labels[name])))
  }

  /** Adding a block twice under one label keeps the second block. */
  lemma {:induction false} LastWriteWins(u: UnitData, name: BlockLabel, first: BasicBlock, second: BasicBlock)
    requires Validate(first.ops) && Validate(second.ops)
    ensures WithBlock(WithBlock(u, name, first).value, name, second).Ok?
    ensures Lookup(WithBlock(WithBlock(u, name, first).value, name, second).value, name) == Some(second)
  {
  }

  /** After a successful `set_entry` the entry holds the block that was added under the
      label, and later additions under other labels do not move it. */
  lemma {:induction false} EntryFollowsLabel(u: UnitData, name: BlockLabel, other: BlockLabel, block: BasicBlock)
    requires Valid(u) && name in u.labels && other != name && Validate(block.ops)
    ensures var e := WithEntry(u, name).value;
      var e' := WithBlock(e, other, block).value;
      e'.entrypoint == Some(u.labels[name]) && e'.blocks[u.labels[name]] == e.blocks[u.labels[name]]
  {
    var e := WithEntry(u, name).value;
    assert other in e.labels ==> e.labels[other] != e.labels[name];
  }

  /** The label-keyed view of a unit: the map from each label to the block it names, the
      shape the unit keeps its blocks in (`BTreeMap<BlockLabel, BasicBlock>`). */
  function Blocks(u: UnitData): (m: map<BlockLabel, BasicBlock>)
    ensures forall l :: (l in m) == Lookup(u, l).Some?
    ensures forall l :: l in m ==> m[l] == Lookup(u, l).value
  {
    map l | l in u.labels && u.labels[l] < |u.blocks| :: u.blocks[u.labels[l]]
  }

  /** Through the label-keyed view, a successful `add_basic_block` is a map insertion:
      the label now names the new block and every other label keeps its block. */
  lemma {:induction false} AddIsInsert(u: UnitData, name: BlockLabel, block: BasicBlock)
    requires Valid(u) && Validate(block.ops)
    ensures Blocks(WithBlock(u, name, block).value) == Blocks(u)[name := block]
  {
    var before, after := Blocks(u), Blocks(WithBlock(u, name, block).value);
    assert forall l :: l in after <==> l in before[name := block];
    forall l | l in after
      ensures after[l] == before[name := block][l]
    {
      if l != name {
        assert Lookup(WithBlock(u, name, block).value, l) == Lookup(u, l);
      }
    }
  }

  /** Through the same view, `set_entry` succeeds exactly on a label that names a block,
      and the entry then holds that block. */
  lemma {:induction false} EntryIsKey(u: UnitData, name: BlockLabel)
    requires Valid(u)
    ensures WithEntry(u, name).Ok? <==> name in Blocks(u)
    ensures WithEntry(u, name).Ok? ==>
      var e := WithEntry(u, name).value;
      e.blocks[e.entrypoint.value] == Blocks(u)[name]
  {
  }

  /** The unit as the library hands it out: its fields are updated in place. */
  class TranslationUnit {
    var labels: map<BlockLabel, nat>
    var blocks: seq<BasicBlock>
    var entrypoint: Option<nat>

    function Data(): UnitData
      reads this
    {
      UnitData(labels, blocks, entrypoint)
    }

    /** `TranslationUnit::default()`. */
    constructor ()
      ensures Data() == EMPTY && Valid(Data())
    {
      labels, blocks, entrypoint := map[], [], None;
    }

    method AddBasicBlock(name: BlockLabel, block: BasicBlock) returns (r: Result<(), string>)
      modifies this
      ensures var spec := WithBlock(old(Data()), name, block);
        if spec.Ok? then r == Ok(()) && Data() == spec.value
        else r == Err(spec.error) && Data() == old(Data())
    {
      if !Validate(block.ops) {
        return Err(NOT_TERMINATED);
      }
      if name in labels && labels[name] < |blocks| {
        blocks := blocks[labels[name] := block];
      } else {
        labels := labels[name := |blocks|];
        blocks := blocks + [block];
      }
      r := Ok(());
    }

    method SetEntry(name: BlockLabel) returns (r: Result<(), string>)
      modifies this
      ensures var spec := WithEntry(old(Data()), name);
        if spec.Ok? then r == Ok(()) && Data() == spec.value
        else r == Err(spec.error) && Data() == old(Data())
    {
      if name !in labels {
        return Err(UnknownLabel(name));
      }
      entrypoint := Some(labels[name]);
      r := Ok(());
    }
  }

  /** A block of either kind, tagged with its kind. */
  datatype MaybeUnsafeBlock = Safe(ops: seq<Operation>) | Unsafe(ops: seq<Operation>)

  /** A unit whose blocks may be unsafe; safe and unsafe blocks share one label namespace. */
  class UnsafeTranslationUnit {
    var blocks: map<BlockLabel, MaybeUnsafeBlock>
    var entrypoint: Option<BlockLabel>

    /** Every stored block is terminated and a set entry names a stored block. */
    ghost predicate Valid()
      reads this
    {
      && (forall l :: l in blocks ==> Validate(blocks[l].ops))
      && (entrypoint.Some? ==> entrypoint.value in blocks)
    }

    /** `UnsafeTranslationUnit::default()`. */
    constructor ()
      ensures Valid() && blocks == map[] && entrypoint == None
    {
      blocks, entrypoint := map[], None;
    }

    method AddBasicBlock(name: BlockLabel, block: JitBlock.BasicBlock) returns (r: Result<(), string>)
      requires Valid()
      modifies this
      ensures Valid() && entrypoint == old(entrypoint)
      ensures !Validate(block.ops) ==> r == Err(NOT_TERMINATED) && blocks == old(blocks)
      ensures Validate(block.ops) ==> r == Ok(()) && blocks == old(blocks)[name := Safe(block.ops)]
    {
      if !Validate(block.ops) {
        return Err(NOT_TERMINATED);
      }
      blocks := blocks[name := Safe(block.ops)];
      r := Ok(());
    }

    /** An `unsafe` method: the only way an unsafe block enters a unit. */
    method AddUnsafeBasicBlock(name: BlockLabel, block: JitBlock.UnsafeBasicBlock) returns (r: Result<(), string>)
      requires Valid()
      modifies this
      ensures Valid() && entrypoint == old(entrypoint)
      ensures !Validate(block.ops) ==> r == Err(NOT_TERMINATED) && blocks == old(blocks)
      ensures Validate(block.ops) ==> r == Ok(()) && blocks == old(blocks)[name := Unsafe(block.ops)]
    {
      if !Validate(block.ops) {
        return Err(NOT_TERMINATED);
      }
      blocks := blocks[name := Unsafe(block.ops)];
      r := Ok(());
    }

    method SetEntry(name: BlockLabel) returns (r: Result<(), string>)
      requires Valid()
      modifies this
      ensures Valid() && blocks == old(blocks)
      ensures name !in blocks ==> r == Err(UnknownLabel(name)) && entrypoint == old(entrypoint)
      ensures name in blocks ==> r == Ok(()) && entrypoint == Some(name)
    {
      if name !in blocks {
        return Err(UnknownLabel(name));
      }
      entrypoint := Some(name);
      r := Ok(());
    }
  }
}
