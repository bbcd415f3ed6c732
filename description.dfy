/**
  Descriptions of the types, fields and methods that generated code refers to.
  They are the descriptive data a field lookup is rebuilt from, compared by value.
*/
module Description {
  import opened StackManipulation

  /** A type: its internal (slash-separated) name, its descriptor and the width of its values. */
  datatype TypeDescription = TypeDescription(internalName: string, descriptor: string, stackSize: StackSize)

  /** A field: where it is declared, its internal name and descriptor, whether it is static, and its type. */
  datatype FieldDescription = FieldDescription(
    declaringType: TypeDescription,
    internalName: string,
    descriptor: string,
    isStatic: bool,
    fieldType: TypeDescription)

  /** An instance method: where it is declared, its internal name and descriptor, its parameter types and its return type. */
  datatype MethodDescription = MethodDescription(
    declaringType: TypeDescription,
    internalName: string,
    descriptor: string,
    parameterTypes: seq<TypeDescription>,
    returnType: TypeDescription)

  /** The slots the arguments of a call occupy on the operand stack. */
  function ParameterSlots(parameters: seq<TypeDescription>): nat
  {
    if parameters == [] then 0 else ParameterSlots(parameters[..|parameters| - 1]) + Slots(parameters[|parameters| - 1].stackSize)
  }

  /** The slots an instance call consumes: the receiver and the arguments. */
  function MethodStackSize(m: MethodDescription): (n: nat)
    ensures n >= 1
  {
    1 + ParameterSlots(m.parameterTypes)
  }
}
