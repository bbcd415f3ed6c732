/**
  The fixture and the two use-site scenarios of the field-constant tests,
  stated against the model: a fresh visitor and a fresh context per scenario,
  and a context that answers the registered request with the cache field.
*/
module FieldConstantTest {
  import opened StackManipulation
  import opened Description
  import opened Asm
  import opened Implementation
  import opened Constant

  const Foo := "foo"
  const Bar := "bar"
  const Qux := "qux"
  const Baz := "baz"

  /** Internal name `foo`, but descriptor `Lqux;`: the two must not be confused. */
  const DeclaringType := TypeDescription(Foo, "L" + Qux + ";", Single)
  /** Only the declaring type and the internal name of the looked-up field matter. */
  const LookedUp := FieldDescription(DeclaringType, Bar, "", false, TypeDescription("", "", Single))

  const CacheDeclaringType := TypeDescription(Baz, "", Single)
  const CacheFieldType := TypeDescription("", "", Single)
  /** The static, single-width field the context hands out for the registered request. */
  const CacheField := FieldDescription(CacheDeclaringType, Foo + Bar, Qux + Baz, true, CacheFieldType)
  /** The answer to any request other than the registered one; distinct from the cache field. */
  const OtherField := FieldDescription(TypeDescription("", "", Zero), "", "", false, TypeDescription("", "", Zero))

  /** The request registered with the context, built from its own `FieldConstant`. */
  const Registered := CacheRequest(FieldConstant(LookedUp), FieldType)

  function Answer(earlier: seq<CacheRequest<FieldConstant>>, request: CacheRequest<FieldConstant>): FieldDescription
  {
    if request == Registered then CacheField else OtherField
  }

  /** The class constant comes from the declaring type's descriptor (`qux`), not from its internal name (`foo`). */
  lemma ClassConstantFromDescriptor()
    ensures TypeOfDescriptor(DeclaringType.descriptor) == ObjectType(Qux)
    ensures TypeOfDescriptor(DeclaringType.descriptor) != ObjectType(DeclaringType.internalName)
  {
    assert ObjectType(Foo).descriptor == "Lfoo;";
    assert DeclaringType.descriptor[1] == 'q' != 'f' == "Lfoo;"[1];
  }

  /** Direct use: Size(1, 2), exactly the three lookup instructions, and no call on the context. */
  method ConstantCreation() returns (size: Size, emitted: seq<Instruction>, requests: seq<CacheRequest<FieldConstant>>)
    ensures size == Size(1, 2)
    ensures emitted == [
      Ldc(TypeValue(ObjectType(Qux))),
      Ldc(StringValue(Bar)),
      MethodInsn(INVOKEVIRTUAL, "java/lang/Class", "getDeclaredField", "(Ljava/lang/String;)Ljava/lang/reflect/Field;", false)]
    ensures requests == []
  {
    var visitor := new MethodVisitor();
    var context := new Context(Answer);
    size := Apply(FieldConstant(LookedUp), visitor, context);
    ClassConstantFromDescriptor();
    emitted := visitor.instructions;
    requests := context.requests;
  }

  /** Cached use: Size(1, 1), one request equal to the registered one, and a single `getstatic` of the cache field. */
  method Cached() returns (size: Size, emitted: seq<Instruction>, requests: seq<CacheRequest<FieldConstant>>)
    ensures size == Size(1, 1)
    ensures emitted == [FieldInsn(GETSTATIC, Baz, Foo + Bar, Qux + Baz)]
    ensures requests == [Registered]
  {
    var visitor := new MethodVisitor();
    var context := new Context(Answer);
    size := ApplyCached(FieldConstant(LookedUp).Cached(), visitor, context);
    emitted := visitor.instructions;
    requests := context.requests;
  }
}
