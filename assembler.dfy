/** The two-pass assembler: an append-only list of symbolic operations, in
    which jumps name labels by number, resolved into bytecode. Pass one
    encodes every operation (jumps with a zero offset) and records the byte
    position of every label; pass two encodes again, writing into each jump
    the recorded position of its target as an absolute offset.

    The byte encoder of the `swf` crate is not part of this model: both passes
    take it as a parameter `enc`, assumed total (its write error is treated as
    impossible, as the source's `expect` does). */
module Assembler {
  import opened Base
  import Abc
  import Intern

  /** A symbolic operation: a finished machine operation, a label position,
      or a jump to a label by number. */
  datatype Op =
    | Raw(raw: Abc.AbcOp)
    | Label(labelId: uint32)
    | IfTrue(target: uint32)
    | IfFalse(target: uint32)
    | IfEq(target: uint32)
    | Jump(target: uint32)

  predicate IsJumpOp(op: Op) {
    op.IfTrue? || op.IfFalse? || op.IfEq? || op.Jump?
  }

  /** The handle `make_label` returns (the Rust `Label` struct). */
  datatype LabelRef = LabelRef(id: uint32)

  /** The source panics on both: a label linked twice (pass one), a jump to a
      label never linked (the `unwrap` in pass two). */
  datatype AsmError = DuplicateLabel(id: nat) | UnlinkedLabel(id: nat)

  type Encoder = Abc.AbcOp -> seq<uint8>

  /** The encoded length of a jump does not depend on its offset. */
  predicate FixedJumpWidth(enc: Encoder) {
    forall o: int32 ::
      |enc(Abc.AbcOp.Jump(o))| == |enc(Abc.AbcOp.Jump(0))| &&
      |enc(Abc.AbcOp.IfTrue(o))| == |enc(Abc.AbcOp.IfTrue(0))| &&
      |enc(Abc.AbcOp.IfFalse(o))| == |enc(Abc.AbcOp.IfFalse(0))| &&
      |enc(Abc.AbcOp.IfEq(o))| == |enc(Abc.AbcOp.IfEq(0))|
  }

  // ---------------------------------------------------------------------------
  // Pass one: label positions.

  /** What pass one writes for an operation: jumps with offset 0. */
  function PassOneOp(op: Op): Abc.AbcOp {
    match op
    case Raw(x) => x
    case Label(_) => Abc.AbcOp.Label
    case IfTrue(_) => Abc.AbcOp.IfTrue(0)
    case IfFalse(_) => Abc.AbcOp.IfFalse(0)
    case IfEq(_) => Abc.AbcOp.IfEq(0)
    case Jump(_) => Abc.AbcOp.Jump(0)
  }

  /** The bytes pass one writes for `ops`. */
  function PassOne(enc: Encoder, ops: seq<Op>): seq<uint8>
    decreases |ops|
  {
    if |ops| == 0 then []
    else PassOne(enc, ops[..|ops| - 1]) + enc(PassOneOp(ops[|ops| - 1]))
  }

  /** The label numbers linked in `ops`, in order. */
  function LabelIds(ops: seq<Op>): seq<nat>
    decreases |ops|
  {
    if |ops| == 0 then []
    else LabelIds(ops[..|ops| - 1]) + (if ops[|ops| - 1].Label? then [ops[|ops| - 1].labelId as nat] else [])
  }

  /** `resolve_labels`: the table from label number to the (u32-truncated)
      length of pass one's output at the point the label is linked. */
  function Resolve(enc: Encoder, ops: seq<Op>): Result<map<nat, uint32>, AsmError>
    decreases |ops|
  {
    if |ops| == 0 then Ok(map[])
    else
      match Resolve(enc, ops[..|ops| - 1])
      case Err(e) => Err(e)
      case Ok(t) =>
        var op := ops[|ops| - 1];
        if !op.Label? then Ok(t)
        else if op.labelId in t then Err(DuplicateLabel(op.labelId))
        else Ok(t[op.labelId := UsizeAsU32(|PassOne(enc, ops[..|ops| - 1])|)])
  }

  // ---------------------------------------------------------------------------
  // Pass two: the output.

  /** What pass two writes for an operation: a jump carries its target's
      recorded position, reinterpreted as `i32`. */
  function FinalOp(op: Op, t: map<nat, uint32>): Result<Abc.AbcOp, AsmError> {
    match op
    case Raw(x) => Ok(x)
    case Label(_) => Ok(Abc.AbcOp.Label)
    case IfTrue(x) => if x in t then Ok(Abc.AbcOp.IfTrue(U32AsI32(t[x]))) else Err(UnlinkedLabel(x))
    case IfFalse(x) => if x in t then Ok(Abc.AbcOp.IfFalse(U32AsI32(t[x]))) else Err(UnlinkedLabel(x))
    case IfEq(x) => if x in t then Ok(Abc.AbcOp.IfEq(U32AsI32(t[x]))) else Err(UnlinkedLabel(x))
    case Jump(x) => if x in t then Ok(Abc.AbcOp.Jump(U32AsI32(t[x]))) else Err(UnlinkedLabel(x))
  }

  /** The bytes pass two writes for `ops`, stopping at the first jump to an
      unlinked label. */
  function PassTwo(enc: Encoder, ops: seq<Op>, t: map<nat, uint32>): Result<seq<uint8>, AsmError>
    decreases |ops|
  {
    if |ops| == 0 then Ok([])
    else
      match PassTwo(enc, ops[..|ops| - 1], t)
      case Err(e) => Err(e)
      case Ok(bytes) =>
        match FinalOp(ops[|ops| - 1], t)
        case Err(e) => Err(e)
        case Ok(op) => Ok(bytes + enc(op))
  }

  /** `compile`: pass one, then pass two with its table. */
  function CompileOps(enc: Encoder, ops: seq<Op>): Result<seq<uint8>, AsmError> {
    match Resolve(enc, ops)
    case Err(e) => Err(e)
    case Ok(t) => PassTwo(enc, ops, t)
  }

  // ---------------------------------------------------------------------------
  // The assembler object.

  class Assembler {
    var opcodes: seq<Op>
    var nextLabelIndex: uint32

    constructor ()
      ensures opcodes == [] && nextLabelIndex == 0
    {
      opcodes := [];
      nextLabelIndex := 0;
    }

    method Emit(op: Op)
      modifies this
      ensures opcodes == old(opcodes) + [op]
      ensures nextLabelIndex == old(nextLabelIndex)
    {
      opcodes := opcodes + [op];
    }

    /** Stack-count markers: no-ops. */
    method MarkerPush() {
    }

    method MarkerPop() {
    }

    /** A fresh label: the current counter, which then moves on, so no two
        labels of one assembler share a number. */
    method MakeLabel() returns (handle: LabelRef)
      requires nextLabelIndex < U32_LIMIT - 1
      modifies this
      ensures handle.id == old(nextLabelIndex)
      ensures nextLabelIndex == old(nextLabelIndex) + 1 > handle.id
      ensures opcodes == old(opcodes)
    {
      handle := LabelRef(nextLabelIndex);
      nextLabelIndex := nextLabelIndex + 1;
    }

    /** `Label::link`: marks the current position as the label's. */
    method Link(handle: LabelRef)
      modifies this
      ensures opcodes == old(opcodes) + [Op.Label(handle.id)]
      ensures nextLabelIndex == old(nextLabelIndex)
    {
      Emit(Op.Label(handle.id));
    }

    method JumpIfTrue(handle: LabelRef)
      modifies this
      ensures opcodes == old(opcodes) + [Op.IfTrue(handle.id)]
      ensures nextLabelIndex == old(nextLabelIndex)
    {
      MarkerPop();
      Emit(Op.IfTrue(handle.id));
    }

    method JumpIfFalse(handle: LabelRef)
      modifies this
      ensures opcodes == old(opcodes) + [Op.IfFalse(handle.id)]
      ensures nextLabelIndex == old(nextLabelIndex)
    {
      MarkerPop();
      Emit(Op.IfFalse(handle.id));
    }

    method JumpIfEq(handle: LabelRef)
      modifies this
      ensures opcodes == old(opcodes) + [Op.IfEq(handle.id)]
      ensures nextLabelIndex == old(nextLabelIndex)
    {
      MarkerPop();
      MarkerPop();
      Emit(Op.IfEq(handle.id));
    }

    method JumpTo(handle: LabelRef)
      modifies this
      ensures opcodes == old(opcodes) + [Op.Jump(handle.id)]
      ensures nextLabelIndex == old(nextLabelIndex)
    {
      Emit(Op.Jump(handle.id));
    }

    /** `push_interned` of a string: interns it, then pushes its pool index. */
    method PushInternedString(context: Intern.InternContext, value: string)
      requires context.Valid()
      modifies this, context
      ensures context.Valid()
      ensures context.State() == Intern.InternStringIn(old(context.State()), value).0
      ensures opcodes == old(opcodes) + [Raw(Abc.AbcOp.PushString(Intern.InternStringIn(old(context.State()), value).1))]
      ensures nextLabelIndex == old(nextLabelIndex)
    {
      MarkerPush();
      var index := context.InternString(value);
      Emit(Raw(Abc.AbcOp.PushString(index)));
    }

    /** `push_immediate` of a `u8`. */
    method PushImmediateByte(value: uint8)
      modifies this
      ensures opcodes == old(opcodes) + [Raw(Abc.AbcOp.PushByte(value))]
      ensures nextLabelIndex == old(nextLabelIndex)
    {
      MarkerPush();
      Emit(Raw(Abc.AbcOp.PushByte(value)));
    }

    /** `push_immediate` of a `bool`. */
    method PushImmediateBool(value: bool)
      modifies this
      ensures opcodes == old(opcodes) + [Raw(if value then Abc.AbcOp.PushTrue else Abc.AbcOp.PushFalse)]
      ensures nextLabelIndex == old(nextLabelIndex)
    {
      MarkerPush();
      Emit(Raw(if value then Abc.AbcOp.PushTrue else Abc.AbcOp.PushFalse));
    }

    method PushScope()
      modifies this
      ensures opcodes == old(opcodes) + [Raw(Abc.AbcOp.PushScope)]
      ensures nextLabelIndex == old(nextLabelIndex)
    {
      MarkerPush();
      Emit(Raw(Abc.AbcOp.PushScope));
    }

    method GetGlobalScope()
      modifies this
      ensures opcodes == old(opcodes) + [Raw(Abc.AbcOp.GetGlobalScope)]
      ensures nextLabelIndex == old(nextLabelIndex)
    {
      MarkerPush();
      Emit(Raw(Abc.AbcOp.GetGlobalScope));
    }

    method Swap()
      modifies this
      ensures opcodes == old(opcodes) + [Raw(Abc.AbcOp.Swap)]
      ensures nextLabelIndex == old(nextLabelIndex)
    {
      Emit(Raw(Abc.AbcOp.Swap));
    }

    method GetLocal(index: uint32)
      modifies this
      ensures opcodes == old(opcodes) + [Raw(Abc.AbcOp.GetLocal(index))]
      ensures nextLabelIndex == old(nextLabelIndex)
    {
      MarkerPush();
      Emit(Raw(Abc.AbcOp.GetLocal(index)));
    }

    method SetLocal(index: uint32)
      modifies this
      ensures opcodes == old(opcodes) + [Raw(Abc.AbcOp.SetLocal(index))]
      ensures nextLabelIndex == old(nextLabelIndex)
    {
      MarkerPop();
      Emit(Raw(Abc.AbcOp.SetLocal(index)));
    }

    method GetSlot(index: uint32)
      modifies this
      ensures opcodes == old(opcodes) + [Raw(Abc.AbcOp.GetSlot(index))]
      ensures nextLabelIndex == old(nextLabelIndex)
    {
      Emit(Raw(Abc.AbcOp.GetSlot(index)));
    }

    method SetSlot(index: uint32)
      modifies this
      ensures opcodes == old(opcodes) + [Raw(Abc.AbcOp.SetSlot(index))]
      ensures nextLabelIndex == old(nextLabelIndex)
    {
      MarkerPop();
      MarkerPop();
      Emit(Raw(Abc.AbcOp.SetSlot(index)));
    }

    method ReturnVoid()
      modifies this
      ensures opcodes == old(opcodes) + [Raw(Abc.AbcOp.ReturnVoid)]
      ensures nextLabelIndex == old(nextLabelIndex)
    {
      Emit(Raw(Abc.AbcOp.ReturnVoid));
    }

    /** Pops the receiver and `numArgs` arguments (markers only), then emits the call. */
    method CallProperty(name: nat, numArgs: uint32)
      modifies this
      ensures opcodes == old(opcodes) + [Raw(Abc.AbcOp.CallProperty(name, numArgs))]
      ensures nextLabelIndex == old(nextLabelIndex)
    {
      MarkerPop();
      for _ := 0 to numArgs
        invariant unchanged(this)
      {
        MarkerPop();
      }
      Emit(Raw(Abc.AbcOp.CallProperty(name, numArgs)));
    }

    method Call(numArgs: uint32)
      modifies this
      ensures opcodes == old(opcodes) + [Raw(Abc.AbcOp.Call(numArgs))]
      ensures nextLabelIndex == old(nextLabelIndex)
    {
      MarkerPop();
      for _ := 0 to numArgs
        invariant unchanged(this)
      {
        MarkerPop();
      }
      Emit(Raw(Abc.AbcOp.Call(numArgs)));
    }

    method FindPropertyStrict(name: nat)
      modifies this
      ensures opcodes == old(opcodes) + [Raw(Abc.AbcOp.FindPropStrict(name))]
      ensures nextLabelIndex == old(nextLabelIndex)
    {
      MarkerPush();
      Emit(Raw(Abc.AbcOp.FindPropStrict(name)));
    }

    /** Pass one, tracking the output length instead of the bytes. */
    method ResolveLabels(enc: Encoder) returns (r: Result<map<nat, uint32>, AsmError>)
      ensures r == Resolve(enc, opcodes)
    {
      var table: map<nat, uint32> := map[];
      var length := 0;
      for i := 0 to |opcodes|
        invariant Resolve(enc, opcodes[..i]) == Ok(table)
        invariant length == |PassOne(enc, opcodes[..i])|
      {
        assert opcodes[..i + 1][..i] == opcodes[..i];
        var op := opcodes[i];
        if op.Label? {
          if op.labelId in table {
            assert opcodes[..i + 1] == opcodes[..i] + [op];
            PrefixErrorSticks(enc, opcodes, i + 1);
            return Err(DuplicateLabel(op.labelId));
          }
          table := table[op.labelId := UsizeAsU32(length)];
        }
        length := length + |enc(PassOneOp(op))|;
      }
      assert opcodes[..|opcodes|] == opcodes;
      r := Ok(table);
    }

    /** Pass two: the label table, then every operation encoded in order. */
    method Compile(enc: Encoder) returns (r: Result<seq<uint8>, AsmError>)
      ensures r == CompileOps(enc, opcodes)
    {
      var resolved := ResolveLabels(enc);
      if resolved.Err? {
        return Err(resolved.error);
      }
      var table := resolved.value;
      var out: seq<uint8> := [];
      for i := 0 to |opcodes|
        invariant PassTwo(enc, opcodes[..i], table) == Ok(out)
      {
        assert opcodes[..i + 1][..i] == opcodes[..i];
        var op := FinalOp(opcodes[i], table);
        if op.Err? {
          PassTwoErrorSticks(enc, opcodes, i + 1, table);
          return Err(op.error);
        }
        out := out + enc(op.value);
      }
      assert opcodes[..|opcodes|] == opcodes;
      r := Ok(out);
    }
  }

  // ---------------------------------------------------------------------------
  // Lemmas.

  /** Once pass one fails on a prefix, it fails with the same error on the whole. */
  lemma {:induction false} PrefixErrorSticks(enc: Encoder, ops: seq<Op>, k: nat)
    requires k <= |ops| && Resolve(enc, ops[..k]).Err?
    ensures Resolve(enc, ops) == Resolve(enc, ops[..k])
    decreases |ops| - k
  {
    if k == |ops| {
      assert ops[..k] == ops;
    } else {
      assert ops[..k + 1][..k] == ops[..k];
      PrefixErrorSticks(enc, ops, k + 1);
    }
  }

  /** Once pass two fails on a prefix, it fails with the same error on the whole. */
  lemma {:induction false} PassTwoErrorSticks(enc: Encoder, ops: seq<Op>, k: nat, t: map<nat, uint32>)
    requires k <= |ops| && PassTwo(enc, ops[..k], t).Err?
    ensures PassTwo(enc, ops, t) == PassTwo(enc, ops[..k], t)
    decreases |ops| - k
  {
    if k == |ops| {
      assert ops[..k] == ops;
    } else {
      assert ops[..k + 1][..k] == ops[..k];
      PassTwoErrorSticks(enc, ops, k + 1, t);
    }
  }

  /** Pass one succeeds exactly when no label is linked twice; its table then
      holds exactly the linked labels. On failure the reported label is one
      linked at least twice. */
  lemma {:induction false} ResolveSucceeds(enc: Encoder, ops: seq<Op>)
    ensures Resolve(enc, ops).Ok? <==> NoDuplicates(LabelIds(ops))
    ensures Resolve(enc, ops).Ok? ==> forall id :: id in Resolve(enc, ops).value <==> id in LabelIds(ops)
    ensures Resolve(enc, ops).Err? ==>
      Resolve(enc, ops).error.DuplicateLabel? && multiset(LabelIds(ops))[Resolve(enc, ops).error.id] >= 2
    decreases |ops|
  {
    if |ops| > 0 {
      var init := ops[..|ops| - 1];
      var op := ops[|ops| - 1];
      ResolveSucceeds(enc, init);
      if op.Label? {
        NoDuplicatesSnoc(LabelIds(init), op.labelId as nat);
      } else {
        assert LabelIds(ops) == LabelIds(init) + [];
      }
      if !NoDuplicates(LabelIds(init)) {
        assert !NoDuplicates(LabelIds(ops)) by {
          if NoDuplicates(LabelIds(ops)) {
            forall i, j | 0 <= i < j < |LabelIds(init)|
              ensures LabelIds(init)[i] != LabelIds(init)[j]
            {
              assert LabelIds(ops)[i] == LabelIds(init)[i];
              assert LabelIds(ops)[j] == LabelIds(init)[j];
            }
          }
        }
      }
    }
  }

  /** Each linked label maps to the number of bytes pass one writes before its
      `Label` operation (truncated to 32 bits). */
  lemma {:induction false} ResolvePositions(enc: Encoder, ops: seq<Op>)
    requires Resolve(enc, ops).Ok?
    ensures forall k :: 0 <= k < |ops| && ops[k].Label? ==>
      ops[k].labelId in Resolve(enc, ops).value &&
      Resolve(enc, ops).value[ops[k].labelId] == UsizeAsU32(|PassOne(enc, ops[..k])|)
    decreases |ops|
  {
    if |ops| > 0 {
      var init := ops[..|ops| - 1];
      ResolvePositions(enc, init);
      forall k | 0 <= k < |ops| - 1
        ensures ops[k] == init[k] && ops[..k] == init[..k]
      {
      }
    }
  }

  /** Pass two writes exactly as many bytes as pass one when jump width does
      not depend on the offset. */
  lemma {:induction false} PassTwoLength(enc: Encoder, ops: seq<Op>, t: map<nat, uint32>)
    requires FixedJumpWidth(enc) && PassTwo(enc, ops, t).Ok?
    ensures |PassTwo(enc, ops, t).value| == |PassOne(enc, ops)|
    decreases |ops|
  {
    if |ops| > 0 {
      PassTwoLength(enc, ops[..|ops| - 1], t);
      var op := ops[|ops| - 1];
      if IsJumpOp(op) {
        var o := U32AsI32(t[op.target]);
        assert |enc(Abc.AbcOp.Jump(o))| == |enc(Abc.AbcOp.Jump(0))|;
        assert |enc(Abc.AbcOp.IfTrue(o))| == |enc(Abc.AbcOp.IfTrue(0))|;
        assert |enc(Abc.AbcOp.IfFalse(o))| == |enc(Abc.AbcOp.IfFalse(0))|;
        assert |enc(Abc.AbcOp.IfEq(o))| == |enc(Abc.AbcOp.IfEq(0))|;
      }
    }
  }

  /** Pass two on a prefix succeeds when it succeeds on the whole, writing a
      prefix of the whole output. */
  lemma {:induction false} PassTwoPrefix(enc: Encoder, ops: seq<Op>, k: nat, t: map<nat, uint32>)
    requires k <= |ops| && PassTwo(enc, ops, t).Ok?
    ensures PassTwo(enc, ops[..k], t).Ok?
    ensures PassTwo(enc, ops[..k], t).value <= PassTwo(enc, ops, t).value
    decreases |ops|
  {
    if k < |ops| {
      var init := ops[..|ops| - 1];
      assert init[..k] == ops[..k];
      PassTwoPrefix(enc, init, k, t);
    } else {
      assert ops[..k] == ops;
    }
  }

  lemma {:induction false} PassOnePrefix(enc: Encoder, ops: seq<Op>, k: nat)
    requires k <= |ops|
    ensures |PassOne(enc, ops[..k])| <= |PassOne(enc, ops)|
    decreases |ops|
  {
    if k < |ops| {
      var init := ops[..|ops| - 1];
      assert init[..k] == ops[..k];
      PassOnePrefix(enc, init, k);
    } else {
      assert ops[..k] == ops;
    }
  }

  /** Pass two succeeds exactly when every jump names a label in the table;
      otherwise it reports an unlinked label. */
  lemma {:induction false} PassTwoSucceeds(enc: Encoder, ops: seq<Op>, t: map<nat, uint32>)
    ensures PassTwo(enc, ops, t).Ok? <==> forall j :: 0 <= j < |ops| && IsJumpOp(ops[j]) ==> ops[j].target as nat in t
    ensures PassTwo(enc, ops, t).Err? ==> PassTwo(enc, ops, t).error.UnlinkedLabel? && PassTwo(enc, ops, t).error.id !in t
    decreases |ops|
  {
    if |ops| > 0 {
      var init := ops[..|ops| - 1];
      PassTwoSucceeds(enc, init, t);
      forall j | 0 <= j < |ops| - 1
        ensures ops[j] == init[j]
      {
      }
    }
  }

  /** `compile` succeeds exactly when no label is linked twice and every jump
      names a linked label. */
  lemma CompileSucceeds(enc: Encoder, ops: seq<Op>)
    ensures CompileOps(enc, ops).Ok? <==>
      NoDuplicates(LabelIds(ops)) &&
      forall j :: 0 <= j < |ops| && IsJumpOp(ops[j]) ==> ops[j].target as nat in LabelIds(ops)
  {
    ResolveSucceeds(enc, ops);
    if Resolve(enc, ops).Ok? {
      PassTwoSucceeds(enc, ops, Resolve(enc, ops).value);
    }
  }

  /** When jumps have a fixed width and the output is shorter than 2^31 bytes,
      the position recorded for every label is where its `Label` operation
      starts in the final output, and every jump carries exactly that position
      as its (absolute) offset. */
  lemma LabelsResolveToOutputPositions(enc: Encoder, ops: seq<Op>)
    requires FixedJumpWidth(enc) && CompileOps(enc, ops).Ok?
    requires |PassOne(enc, ops)| <= I32_MAX
    ensures var t := Resolve(enc, ops).value;
      forall k :: 0 <= k < |ops| && ops[k].Label? ==>
        ops[k].labelId as nat in t && PassTwo(enc, ops[..k], t).Ok? &&
        PassTwo(enc, ops[..k], t).value <= CompileOps(enc, ops).value &&
        t[ops[k].labelId] == |PassTwo(enc, ops[..k], t).value|
    ensures var t := Resolve(enc, ops).value;
      forall j :: 0 <= j < |ops| && IsJumpOp(ops[j]) ==>
        ops[j].target as nat in t && FinalOp(ops[j], t).Ok? &&
        FinalOp(ops[j], t).value.offset == t[ops[j].target]
  {
    var t := Resolve(enc, ops).value;
    ResolvePositions(enc, ops);
    forall k | 0 <= k < |ops| && ops[k].Label?
      ensures ops[k].labelId as nat in t
      ensures PassTwo(enc, ops[..k], t).Ok?
      ensures PassTwo(enc, ops[..k], t).value <= CompileOps(enc, ops).value
      ensures t[ops[k].labelId] == |PassTwo(enc, ops[..k], t).value|
    {
      PassTwoPrefix(enc, ops, k, t);
      PassTwoLength(enc, ops[..k], t);
      PassOnePrefix(enc, ops, k);
    }
    PassTwoSucceeds(enc, ops, t);
    ResolveBound(enc, ops);
  }

  /** Every recorded position is at most the length of pass one's output. */
  lemma {:induction false} ResolveBound(enc: Encoder, ops: seq<Op>)
    requires Resolve(enc, ops).Ok?
    ensures forall id :: id in Resolve(enc, ops).value ==> Resolve(enc, ops).value[id] <= |PassOne(enc, ops)|
    decreases |ops|
  {
    if |ops| > 0 {
      ResolveBound(enc, ops[..|ops| - 1]);
    }
  }

  /** The assembler's own test: a label linked at the start and a jump to it.
      The label resolves to 0 and the jump is written with offset 0. */
  lemma LinkThenJump(enc: Encoder)
    ensures Resolve(enc, [Label(0), Jump(0)]) == Ok(map[0 := 0])
    ensures CompileOps(enc, [Label(0), Jump(0)]) == Ok(enc(Abc.AbcOp.Label) + enc(Abc.AbcOp.Jump(0)))
  {
    var ops := [Label(0), Jump(0)];
    assert ops[..1] == [Label(0)];
    assert ops[..1][..0] == [];
    assert Resolve(enc, ops[..1]) == Ok(map[0 := 0]);
    assert [] + enc(Abc.AbcOp.Label) == enc(Abc.AbcOp.Label);
    assert PassTwo(enc, ops[..1][..0], map[0 := 0]) == Ok([]);
    assert PassTwo(enc, ops[..1], map[0 := 0]) == Ok(enc(Abc.AbcOp.Label));
  }

  /** A jump to a label never linked, and a label linked twice, are errors. */
  lemma AssemblerErrors(enc: Encoder)
    ensures CompileOps(enc, [Jump(3)]) == Err(UnlinkedLabel(3))
    ensures CompileOps(enc, [Label(1), Label(1)]) == Err(DuplicateLabel(1))
  {
    assert [Jump(3)][..0] == [];
    var twice := [Label(1), Label(1)];
    assert twice[..1] == [Label(1)];
    assert twice[..1][..0] == [];
  }
}
