/**
  The instruction-level view of generated code: the constants an `ldc` can
  push, the instructions a stack manipulation emits, and the visitor that
  receives them in order.
*/
module Asm {

  /** A type as the instruction encoding names it, identified by its descriptor. */
  datatype AsmType = AsmType(descriptor: string)

  /** The type a descriptor such as `Ljava/lang/String;` denotes. */
  function TypeOfDescriptor(descriptor: string): AsmType
  {
    AsmType(descriptor)
  }

  /** The object or array type with the given internal name. */
  function ObjectType(internalName: string): AsmType
  {
    if |internalName| > 0 && internalName[0] == '[' then AsmType(internalName) else AsmType("L" + internalName + ";")
  }

  /** A constant an `ldc` instruction loads from the constant pool. */
  datatype LdcValue = TypeValue(asmType: AsmType) | StringValue(text: string)

  datatype Opcode = GETSTATIC | GETFIELD | INVOKEVIRTUAL

  datatype Instruction =
    | Ldc(value: LdcValue)
    | MethodInsn(opcode: Opcode, owner: string, name: string, descriptor: string, isInterface: bool)
    | FieldInsn(opcode: Opcode, owner: string, name: string, descriptor: string)

  /** Receives instructions one call at a time and keeps them in the order received. */
  class MethodVisitor {
    var instructions: seq<Instruction>

    constructor ()
      ensures instructions == []
    {
      instructions := [];
    }

    method VisitLdcInsn(value: LdcValue)
      modifies this
      ensures instructions == old(instructions) + [Ldc(value)]
    {
      instructions := instructions + [Ldc(value)];
    }

    method VisitMethodInsn(opcode: Opcode, owner: string, name: string, descriptor: string, isInterface: bool)
      modifies this
      ensures instructions == old(instructions) + [MethodInsn(opcode, owner, name, descriptor, isInterface)]
    {
      instructions := instructions + [MethodInsn(opcode, owner, name, descriptor, isInterface)];
    }

    method VisitFieldInsn(opcode: Opcode, owner: string, name: string, descriptor: string)
      modifies this
      ensures instructions == old(instructions) + [FieldInsn(opcode, owner, name, descriptor)]
    {
      instructions := instructions + [FieldInsn(opcode, owner, name, descriptor)];
    }
  }
}
