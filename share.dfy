/** Types and limits shared by every part of the toolchain (share.h). */
module Share {

  /** Address of the first local variable of a block: slot 0 holds the saved
      display entry and slot 1 the return address. */
  const FIRST_LOCAL_ADDRESS: int := 2

  /** Buffer sizes of the lexer (identifier, number and string literal). */
  const MAX_LEN_IDENTIFIER: nat := 30
  const MAX_LEN_NUMBER_LITERAL: nat := 30
  const MAX_LEN_STRING_LITERAL: nat := 50

  /** Depth of the block stack of the name table. */
  const MAX_BLOCK_LEVEL: nat := 20

  /** Heap objects are addressed by handle instead of by pointer. */
  type Handle = nat

  /** LL1LL_TypeKind together with the payload of LL1LL_Value.  A double is
      kept as the text of its literal: floating point is not modelled. */
  datatype Value =
    | IntValue(intValue: int)
    | DoubleValue(doubleText: string)
    | BooleanValue(booleanValue: bool)
    | ObjectValue(handle: Handle)
    | NullValue

  /** LL1LL_ObjectType. */
  datatype ObjectType = ArrayObject | StringObject
}
