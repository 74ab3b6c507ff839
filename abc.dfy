/** The part of the ABC (ActionScript Byte Code) container types that the
    code generator constructs: machine operations, namespaces and multinames.
    These types belong to the `swf` crate, whose source is not part of this
    model; only the variants the compiler builds are listed. Constant-pool
    indices are naturals. */
module Abc {
  import opened Base

  datatype AbcOp =
    | Add
    | Subtract
    | Multiply
    | Divide
    | PushByte(byteValue: uint8)
    | PushShort(shortValue: int16)
    | PushString(stringIndex: nat)
    | PushTrue
    | PushFalse
    | GetLocal(index: nat)
    | SetLocal(index: nat)
    | GetSlot(index: nat)
    | SetSlot(index: nat)
    | CoerceA
    | PushScope
    | GetGlobalScope
    | Swap
    | ReturnVoid
    | ReturnValue
    | CallProperty(multinameIndex: nat, numArgs: nat)
    | Call(numArgs: nat)
    | FindPropStrict(multinameIndex: nat)
    | Label
    | Jump(offset: int32)
    | IfTrue(offset: int32)
    | IfFalse(offset: int32)
    | IfEq(offset: int32)

  predicate IsJump(op: AbcOp) {
    op.Jump? || op.IfTrue? || op.IfFalse? || op.IfEq?
  }

  /** A package namespace, named by a string-pool index. */
  datatype Namespace = Package(nameIndex: nat)

  /** A qualified name: a namespace-pool index and a string-pool index. */
  datatype Multiname = QName(namespace: nat, name: nat)
}
