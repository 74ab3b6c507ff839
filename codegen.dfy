/** The code buffer the function lowering writes into: machine operations,
    plus placeholders for locals and strings that later passes resolve. */
module CodeGen {
  import opened Base
  import Abc

  datatype WrappedOp =
    | RawOp(op: Abc.AbcOp)
    /** A local read by name, before register assignment. */
    | GetLocal(name: string)
    /** A local write by name, before register assignment. */
    | SetLocal(name: string)
    /** A string push, before constant-pool interning. */
    | PushString(value: string)

  /** Failures of the code generator (each a `todo!`, `panic!` or `unwrap` in
      the source). */
  datatype GenError =
    | UnhandledInt(intValue: int)
    | UnknownVariable(variable: string)
    | UnsupportedVarType
    | UnsupportedReturnType
    | UnsupportedOperation
    | Unimplemented

  /** The range of the `PushByte` operand (`u8`) and of the `PushShort`
      operand (`i16`). */
  const BYTE_MIN: int := 0
  const BYTE_MAX: int := 0xff
  const SHORT_MIN: int := -0x8000
  const SHORT_MAX: int := 0x7fff

  /** The value an integer push places on the stack. */
  function PushedInt(op: Abc.AbcOp): int
    requires op.PushByte? || op.PushShort?
  {
    if op.PushByte? then op.byteValue else op.shortValue
  }

  /** `emit_stack_push_int`'s choice: the byte form whenever the value fits
      it, else the short form whenever the value fits that, else a failure. */
  function PushIntOp(val: int32): (r: Result<Abc.AbcOp, GenError>)
    ensures r.Ok? <==> SHORT_MIN <= val <= SHORT_MAX || BYTE_MIN <= val <= BYTE_MAX
    ensures r.Ok? ==> (r.value.PushByte? || r.value.PushShort?) && PushedInt(r.value) == val
    ensures r.Ok? ==> (r.value.PushByte? <==> BYTE_MIN <= val <= BYTE_MAX)
    ensures r.Err? ==> r.error == UnhandledInt(val)
  {
    if BYTE_MIN <= val <= BYTE_MAX then Ok(Abc.AbcOp.PushByte(val))
    else if SHORT_MIN <= val <= SHORT_MAX then Ok(Abc.AbcOp.PushShort(val))
    else Err(UnhandledInt(val))
  }

  /** Small negative numbers take the short form, as do byte-overflowing
      positives up to 32767; 40000 fits neither form. */
  lemma PushIntExamples()
    ensures PushIntOp(0) == Ok(Abc.AbcOp.PushByte(0))
    ensures PushIntOp(255) == Ok(Abc.AbcOp.PushByte(255))
    ensures PushIntOp(256) == Ok(Abc.AbcOp.PushShort(256))
    ensures PushIntOp(-1) == Ok(Abc.AbcOp.PushShort(-1))
    ensures PushIntOp(40000) == Err(UnhandledInt(40000))
  {
  }

  class CodeGenerationContext {
    var code: seq<WrappedOp>

    constructor ()
      ensures code == []
    {
      code := [];
    }

    method EmitOp(op: Abc.AbcOp)
      modifies this
      ensures code == old(code) + [RawOp(op)]
    {
      code := code + [RawOp(op)];
    }

    method EmitWrappedOp(op: WrappedOp)
      modifies this
      ensures code == old(code) + [op]
    {
      code := code + [op];
    }

    /** On success appends the chosen push; the failure is the source's panic,
        after which the buffer is not used again. */
    method EmitStackPushInt(val: int32) returns (r: Outcome<GenError>)
      modifies this
      ensures r.Pass? <==> PushIntOp(val).Ok?
      ensures r.Pass? ==> code == old(code) + [RawOp(PushIntOp(val).value)]
      ensures r.Fail? ==> r.error == PushIntOp(val).error && code == old(code)
    {
      if BYTE_MIN <= val <= BYTE_MAX {
        EmitOp(Abc.AbcOp.PushByte(val));
        r := Pass;
      } else if SHORT_MIN <= val <= SHORT_MAX {
        EmitOp(Abc.AbcOp.PushShort(val));
        r := Pass;
      } else {
        r := Fail(UnhandledInt(val));
      }
    }

    /** The boolean push the function lowering calls; it is not defined in the
        code generator, so it is assumed to mirror the assembler's boolean
        immediate. */
    method PushBool(value: bool)
      modifies this
      ensures code == old(code) + [RawOp(if value then Abc.AbcOp.PushTrue else Abc.AbcOp.PushFalse)]
    {
      EmitOp(if value then Abc.AbcOp.PushTrue else Abc.AbcOp.PushFalse);
    }
  }
}
