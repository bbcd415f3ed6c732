/**
  A constant that rebuilds the reflective `Field` object of a described field,
  either directly at every use site or once, through a field the
  implementation context caches it in.

  Directly, the lookup loads the declaring class, loads the field's name and
  calls `Class.getDeclaredField(String)`: the stack grows by one value and
  peaks at two. Cached, each use is a single read of the cache field.
*/
module Constant {
  import opened StackManipulation
  import opened Description
  import opened Asm
  import Leaves
  import opened Implementation

  const ClassType := TypeDescription("java/lang/Class", "Ljava/lang/Class;", Single)
  const StringType := TypeDescription("java/lang/String", "Ljava/lang/String;", Single)
  /** The type a cached lookup is requested as. */
  const FieldType := TypeDescription("java/lang/reflect/Field", "Ljava/lang/reflect/Field;", Single)
  const GetDeclaredField := MethodDescription(
    ClassType, "getDeclaredField", "(Ljava/lang/String;)Ljava/lang/reflect/Field;", [StringType], FieldType)

  /** `getDeclaredField` consumes its receiver and one string argument. */
  lemma GetDeclaredFieldStackSize()
    ensures MethodStackSize(GetDeclaredField) == 2
  {
    var parameters := GetDeclaredField.parameterTypes;
    assert parameters[..0] == [];
    assert ParameterSlots(parameters[..0]) == 0;
    assert ParameterSlots(parameters) == 1;
  }

  /** The lookup of one field; its identity is the field description alone. */
  datatype FieldConstant = FieldConstant(fieldDescription: FieldDescription) {
    /** The same lookup, read back from a field the context caches it in. */
    function Cached(): (r: CachedFieldConstant)
      ensures r.fieldConstant == this
    {
      CachedFieldConstant(this)
    }
  }

  /** A lookup applied through the context's cache; its identity is the wrapped lookup alone. */
  datatype CachedFieldConstant = CachedFieldConstant(fieldConstant: FieldConstant)

  /** The three manipulations a direct lookup is made of, in order. */
  function Recipe(c: FieldConstant): (r: seq<Leaves.Leaf>)
    ensures |r| == 3
    ensures forall i :: 0 <= i < |r| ==> Leaves.Typed(r[i]) && !r[i].FieldGetter?
  {
    [ Leaves.ClassConstant(c.fieldDescription.declaringType),
      Leaves.TextConstant(c.fieldDescription.internalName),
      Leaves.InvokeVirtual(GetDeclaredField) ]
  }

  /** Two pushes and a call that consumes two and pushes one. */
  lemma RecipeSize(leaves: seq<Leaves.Leaf>)
    requires |leaves| == 3
    requires Leaves.LeafSize(leaves[0]) == Size(1, 1) && Leaves.LeafSize(leaves[1]) == Size(1, 1)
    requires Leaves.LeafSize(leaves[2]) == Size(-1, 0)
    ensures Leaves.CompoundSize(leaves) == Size(1, 2)
  {
    Leaves.CompoundSizeOfThree(leaves);
  }

  /** A direct lookup leaves one value on the stack and needs two slots while it runs. */
  function DirectSize(c: FieldConstant): (r: Size)
    ensures r == Size(1, 2)
  {
    GetDeclaredFieldStackSize();
    RecipeSize(Recipe(c));
    Leaves.CompoundSize(Recipe(c))
  }

  /**
    A direct lookup emits the class constant named by the declaring type's
    descriptor, then the field's internal name, then a non-interface
    `invokevirtual` of `Class.getDeclaredField`.
  */
  function DirectInstructions(c: FieldConstant): (r: seq<Instruction>)
    ensures r == [
      Ldc(TypeValue(TypeOfDescriptor(c.fieldDescription.declaringType.descriptor))),
      Ldc(StringValue(c.fieldDescription.internalName)),
      MethodInsn(INVOKEVIRTUAL, "java/lang/Class", "getDeclaredField", "(Ljava/lang/String;)Ljava/lang/reflect/Field;", false)]
  {
    Leaves.InstructionsOfThree(Recipe(c));
    Leaves.Instructions(Recipe(c))
  }

  /** The size a direct lookup reports is the effect of its stack traffic: push, push, pop two, push. */
  lemma DirectSizeIsTrace(c: FieldConstant)
    ensures Leaves.CompoundTrace(Recipe(c)) == [1, 1, -2, 1]
    ensures DirectSize(c) == Effect([1, 1, -2, 1])
  {
    GetDeclaredFieldStackSize();
    Leaves.CompoundTraceOfThree(Recipe(c));
    Leaves.CompoundSizeIsTrace(Recipe(c));
  }

  /** Emits the lookup directly; the context is not consulted. */
  method Apply(c: FieldConstant, visitor: MethodVisitor, context: Context<FieldConstant>) returns (size: Size)
    modifies visitor
    ensures visitor.instructions == old(visitor.instructions) + DirectInstructions(c)
    ensures size == DirectSize(c)
    ensures context.requests == old(context.requests)
  {
    size := Leaves.ApplyCompound(Recipe(c), visitor);
  }

  /** What a cached lookup asks the context for: the lookup itself, as a `java.lang.reflect.Field`. */
  function Request(c: CachedFieldConstant): (r: CacheRequest<FieldConstant>)
    ensures r.key == c.fieldConstant
    ensures r.fieldType.internalName == "java/lang/reflect/Field" && r.fieldType.stackSize == Single
  {
    CacheRequest(c.fieldConstant, FieldType)
  }

  /** Reading a cached value from a static field pushes exactly that value; its peak is its width. */
  function ReadSize(field: FieldDescription): (r: Size)
    ensures field.isStatic ==> r == Increasing(field.fieldType.stackSize)
  {
    Leaves.LeafSize(Leaves.FieldGetter(field))
  }

  /** A static cache field is read with one `getstatic` naming its owner, internal name and descriptor. */
  function ReadInstruction(field: FieldDescription): (r: Instruction)
    ensures field.isStatic ==>
      r == FieldInsn(GETSTATIC, field.declaringType.internalName, field.internalName, field.descriptor)
  {
    Leaves.LeafInstruction(Leaves.FieldGetter(field))
  }

  /** Asks the context once for the field caching the lookup, then emits one read of that field. */
  method ApplyCached(c: CachedFieldConstant, visitor: MethodVisitor, context: Context<FieldConstant>)
    returns (size: Size)
    modifies visitor, context
    ensures context.requests == old(context.requests) + [Request(c)]
    ensures var field := context.resolve(old(context.requests), Request(c));
      visitor.instructions == old(visitor.instructions) + [ReadInstruction(field)] && size == ReadSize(field)
  {
    var field := context.Cache(c.fieldConstant, FieldType);
    size := Leaves.Apply(Leaves.FieldGetter(field), visitor);
  }

  /** A cached use through a static single-width field reports Size(1, 1), whatever it wraps, and is cheaper than a direct one. */
  lemma CachedReadIsCheaper(c: FieldConstant, field: FieldDescription)
    requires field.isStatic && field.fieldType.stackSize == Single
    ensures ReadSize(field) == Size(1, 1)
    ensures ReadSize(field).maximal < DirectSize(c).maximal
    ensures |[ReadInstruction(field)]| < |DirectInstructions(c)|
  {
  }

  /** Lookups are equal exactly when their field descriptions are. */
  lemma FieldConstantEquality(a: FieldDescription, b: FieldDescription)
    ensures FieldConstant(a) == FieldConstant(b) <==> a == b
  {
  }

  /** Caching is transparent to identity: cached lookups are equal exactly when the wrapped lookups are. */
  lemma CachedEquality(a: FieldConstant, b: FieldConstant)
    ensures a.Cached() == b.Cached() <==> a == b
  {
  }

  /**
    A lookup built afresh at a use site asks for the very request registered
    for an equal field description, and for no other.
  */
  lemma RequestMatchesRegistration(used: FieldDescription, registered: FieldDescription)
    ensures Request(FieldConstant(used).Cached()) == CacheRequest(FieldConstant(registered), FieldType)
      <==> used == registered
  {
  }
}
