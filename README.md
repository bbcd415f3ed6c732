# FieldConstant: a verified model

This project models Byte Buddy's `FieldConstant` stack manipulation and its
`FieldConstant.Cached` wrapper. It follows the contract that the unit test
`FieldConstantTest` pins down.

A `FieldConstant` produces the `java.lang.reflect.Field` object for a
described field. It does this at run time by loading the declaring class as a
class constant, loading the field's internal name as a string constant, and
calling `Class.getDeclaredField(String)`. It reports the stack size
`Size(1, 2)`: one value is left behind, and the stack peaks at two values
(the class and the name) just before the call. The cached variant asks the
implementation context, once, for a static field that holds the looked-up
value. It then emits a single `getstatic` of that field and reports
`Size(1, 1)`.

Modules, one per concept:

- `StackManipulation` (`stack_manipulation.dfy`): widths of stack values
  (`StackSize`), the `Size(impact, maximal)` value and its sequencing rule
  `Aggregate`. A reference semantics gives these numbers their meaning: a trace
  of height changes, whose `Effect` is its sum and its highest prefix sum.
  The lemmas prove that `Aggregate` computes exactly the effect of running two
  traces one after the other. They also prove that the rule is associative
  and that `Size(0, 0)` is neutral for well-formed sizes.
- `Description` (`description.dfy`): descriptions of types, fields and
  methods. These are values compared structurally.
- `Asm` (`asm.dfy`): the instructions and the `MethodVisitor` class. The
  visitor appends each visited instruction to its `instructions` sequence.
- `Leaves` (`leaves.dfy`): the single-instruction manipulations a lookup is
  built from (class constant, text constant, `invokevirtual`, field read).
  For each well-typed leaf (a field's type is never void), the size it
  reports is proved equal to the effect of its instruction's pops and pushes. It also holds the compound that applies a
  list of leaves in a loop, aggregating their sizes from the left, with the
  proof that the compound's size is the effect of all its instructions'
  pops and pushes.
- `Implementation` (`implementation_context.dfy`): the context class. It
  records every `cache` request and answers with a field chosen by a
  `resolve` function of the earlier requests and the current one.
- `Constant` (`field_constant.dfy`): `FieldConstant`, `CachedFieldConstant`,
  their two `apply` methods, and what the two kinds of use site emit and
  report.
- `FieldConstantTest` (`field_constant_test.dfy`): the test fixture and its
  two use-site scenarios, as methods whose postconditions are the test's
  expectations.

## Model

| member | source | states |
|---|---|---|
| `StackManipulation.EffectAppend` | byte-buddy-dep/src/test/java/net/bytebuddy/implementation/bytecode/constant/FieldConstantTest.java:64-66 | the sequencing rule (impacts add, peak is `max(a.maximal, a.impact + b.maximal)`) gives exactly the net change and peak of running one trace of stack steps after another |
| `StackManipulation.Aggregate` | byte-buddy-dep/src/test/java/net/bytebuddy/implementation/bytecode/constant/FieldConstantTest.java:64-66 | sequencing two sizes adds the impacts, and the peak is the larger of the first peak and the first impact plus the second peak; `EffectAppend` shows this is exactly running one after the other |
| `StackManipulation.Slots` | byte-buddy-dep/src/test/java/net/bytebuddy/implementation/bytecode/constant/FieldConstantTest.java:57 | a void value takes no slot, and no value takes more than two |
| `StackManipulation.Increasing` | byte-buddy-dep/src/test/java/net/bytebuddy/implementation/bytecode/constant/FieldConstantTest.java:81-82 | pushing one value of a given width raises the stack by that width and peaks there, a well-formed size |
| `StackManipulation.AggregateAssociative` | byte-buddy-dep/src/test/java/net/bytebuddy/implementation/bytecode/constant/FieldConstantTest.java:64-66 | grouping does not change the combined size |
| `StackManipulation.AggregateEmpty` | byte-buddy-dep/src/test/java/net/bytebuddy/implementation/bytecode/constant/FieldConstantTest.java:64-66 | `Size(0, 0)` is neutral on both sides for well-formed sizes |
| `StackManipulation.AggregateWellformed` | byte-buddy-dep/src/test/java/net/bytebuddy/implementation/bytecode/constant/FieldConstantTest.java:64-66 | sequencing keeps the peak at or above both zero and the net change |
| `StackManipulation.PeakBounds` | byte-buddy-dep/src/test/java/net/bytebuddy/implementation/bytecode/constant/FieldConstantTest.java:66 | the peak is at least zero, at least the net change, and at least the height after every prefix of the steps |
| `StackManipulation.PeakAttained` | byte-buddy-dep/src/test/java/net/bytebuddy/implementation/bytecode/constant/FieldConstantTest.java:66 | some prefix of the steps reaches the peak exactly |
| `StackManipulation.EffectWellformed` | byte-buddy-dep/src/test/java/net/bytebuddy/implementation/bytecode/constant/FieldConstantTest.java:64-66 | every sequence of steps has a well-formed size |
| `StackManipulation.Witness` | byte-buddy-dep/src/test/java/net/bytebuddy/implementation/bytecode/constant/FieldConstantTest.java:64-66 | every well-formed size is the size of some sequence of steps |
| `StackManipulation.WellformedIffRealizable` | byte-buddy-dep/src/test/java/net/bytebuddy/implementation/bytecode/constant/FieldConstantTest.java:64-66 | a size is well-formed if and only if some sequence of steps has it |
| `Leaves.LeafSizeIsTrace` | byte-buddy-dep/src/test/java/net/bytebuddy/implementation/bytecode/constant/FieldConstantTest.java:64-86 | for well-typed leaves (a field's type is never void), the size each single-instruction manipulation reports equals the effect of its instruction's pops and then pushes |
| `Leaves.LeafSize` | byte-buddy-dep/src/test/java/net/bytebuddy/implementation/bytecode/constant/FieldConstantTest.java:64-86 | the size a single-instruction manipulation reports is well-formed for well-typed leaves and never peaks above two slots; `LeafSizeIsTrace` ties it to the instruction's pops and pushes |
| `Leaves.LeafInstruction` | byte-buddy-dep/src/test/java/net/bytebuddy/implementation/bytecode/constant/FieldConstantTest.java:67-73 | constants are emitted as `ldc`, a method call as a non-interface `invokevirtual`, and a field read as `getstatic` exactly when the field is static (`getfield` otherwise) |
| `Leaves.CompoundSizeIsTrace` | byte-buddy-dep/src/test/java/net/bytebuddy/implementation/bytecode/constant/FieldConstantTest.java:64-66 | for a compound of well-typed leaves (a field's type is never void), the reported size equals the effect of all its instructions' stack traffic, in order |
| `Leaves.CompoundSizeAppend` | byte-buddy-dep/src/test/java/net/bytebuddy/implementation/bytecode/constant/FieldConstantTest.java:64-66 | splitting a compound of well-typed leaves anywhere and aggregating the sizes of the two parts gives the size of the whole |
| `Leaves.CompoundSize` | byte-buddy-dep/src/test/java/net/bytebuddy/implementation/bytecode/constant/FieldConstantTest.java:64-66 | a compound of well-typed leaves reports a well-formed size; `CompoundSizeIsTrace` shows it is the effect of the leaves' traffic, and `CompoundSizeAppend` that it respects splitting |
| `Leaves.Instructions` | byte-buddy-dep/src/test/java/net/bytebuddy/implementation/bytecode/constant/FieldConstantTest.java:67-74 | a compound emits exactly one instruction per leaf |
| `Leaves.InstructionsAt` | byte-buddy-dep/src/test/java/net/bytebuddy/implementation/bytecode/constant/FieldConstantTest.java:67-74 | the instruction at each position is the one its leaf emits |
| `Leaves.Apply` | byte-buddy-dep/src/test/java/net/bytebuddy/implementation/bytecode/constant/FieldConstantTest.java:67-73 | a leaf appends exactly its one instruction to the visitor and returns its size |
| `Leaves.ApplyCompound` | byte-buddy-dep/src/test/java/net/bytebuddy/implementation/bytecode/constant/FieldConstantTest.java:64-74 | a compound appends its parts' instructions in order, nothing else, and returns their sizes aggregated from the left |
| `Asm.MethodVisitor.constructor` | byte-buddy-dep/src/test/java/net/bytebuddy/implementation/bytecode/constant/FieldConstantTest.java:38-39 | a fresh visitor has received no instructions |
| `Asm.MethodVisitor.VisitLdcInsn` | byte-buddy-dep/src/test/java/net/bytebuddy/implementation/bytecode/constant/FieldConstantTest.java:67-68 | appends one `ldc` of the given constant |
| `Asm.MethodVisitor.VisitMethodInsn` | byte-buddy-dep/src/test/java/net/bytebuddy/implementation/bytecode/constant/FieldConstantTest.java:69-73 | appends one method instruction with the given opcode, owner, name, descriptor and interface flag |
| `Asm.MethodVisitor.VisitFieldInsn` | byte-buddy-dep/src/test/java/net/bytebuddy/implementation/bytecode/constant/FieldConstantTest.java:85 | appends one field instruction with the given opcode, owner, name and descriptor |
| `Implementation.Context.constructor` | byte-buddy-dep/src/test/java/net/bytebuddy/implementation/bytecode/constant/FieldConstantTest.java:41-42 | a fresh context has received no requests and answers through the given `resolve` |
| `Implementation.Context.Cache` | byte-buddy-dep/src/test/java/net/bytebuddy/implementation/bytecode/constant/FieldConstantTest.java:50-51 | records the request (manipulation, requested type) after all earlier ones and returns the field `resolve` gives for it |
| `Description.MethodStackSize` | byte-buddy-dep/src/test/java/net/bytebuddy/implementation/bytecode/constant/FieldConstantTest.java:69-73 | a method invocation consumes at least one slot, the receiver, plus its parameters' slots |
| `Constant.GetDeclaredFieldStackSize` | byte-buddy-dep/src/test/java/net/bytebuddy/implementation/bytecode/constant/FieldConstantTest.java:69-73 | `getDeclaredField(String)` consumes two stack slots: the receiver and the name |
| `Constant.Recipe` | byte-buddy-dep/src/test/java/net/bytebuddy/implementation/bytecode/constant/FieldConstantTest.java:64-73 | a direct lookup is a compound of three well-typed leaves, none of them a field read, so `CompoundSizeIsTrace` applies; `DirectInstructions` and `DirectSize` spell out what it emits and reports |
| `Constant.DirectSize` | byte-buddy-dep/src/test/java/net/bytebuddy/implementation/bytecode/constant/FieldConstantTest.java:64-66 | a direct lookup, for every field description, reports net impact 1 and maximal size 2 |
| `Constant.DirectSizeIsTrace` | byte-buddy-dep/src/test/java/net/bytebuddy/implementation/bytecode/constant/FieldConstantTest.java:64-66 | the lookup's stack traffic is push, push, pop two, push, and the reported `Size(1, 2)` is exactly its effect |
| `Constant.DirectInstructions` | byte-buddy-dep/src/test/java/net/bytebuddy/implementation/bytecode/constant/FieldConstantTest.java:67-73 | a direct lookup is: `ldc` of the type named by the declaring type's descriptor, `ldc` of the field's internal name, and a non-interface `invokevirtual java/lang/Class.getDeclaredField(Ljava/lang/String;)Ljava/lang/reflect/Field;` |
| `Constant.Apply` | byte-buddy-dep/src/test/java/net/bytebuddy/implementation/bytecode/constant/FieldConstantTest.java:64-75 | the direct apply appends exactly those three instructions, returns `Size(1, 2)`, and does not touch the context |
| `Constant.ReadSize` | byte-buddy-dep/src/test/java/net/bytebuddy/implementation/bytecode/constant/FieldConstantTest.java:53-57 | reading a static cache field pushes exactly its value: impact and peak are both its width |
| `Constant.ReadInstruction` | byte-buddy-dep/src/test/java/net/bytebuddy/implementation/bytecode/constant/FieldConstantTest.java:52-59 | a static cache field is read by one `getstatic` naming its declaring type's internal name, its internal name and its descriptor |
| `Constant.FieldConstant.Cached` | byte-buddy-dep/src/test/java/net/bytebuddy/implementation/bytecode/constant/FieldConstantTest.java:80 | the cached form wraps exactly the lookup it was made from; `CachedEquality` shows it keeps identity |
| `Constant.Request` | byte-buddy-dep/src/test/java/net/bytebuddy/implementation/bytecode/constant/FieldConstantTest.java:83 | a cached lookup asks the context for the wrapped lookup itself, as the single-width type `java/lang/reflect/Field`; `RequestMatchesRegistration` ties it to the registered key |
| `Constant.ApplyCached` | byte-buddy-dep/src/test/java/net/bytebuddy/implementation/bytecode/constant/FieldConstantTest.java:80-86 | the cached apply makes exactly one request (the wrapped `FieldConstant`, as `java.lang.reflect.Field`), then appends exactly one read of the field returned and reports that read's size |
| `Constant.CachedReadIsCheaper` | byte-buddy-dep/src/test/java/net/bytebuddy/implementation/bytecode/constant/FieldConstantTest.java:80-82 | through a static single-width field a cached use reports `Size(1, 1)` whatever it wraps, a lower peak and fewer instructions than the direct lookup |
| `Constant.FieldConstantEquality` | byte-buddy-dep/src/test/java/net/bytebuddy/implementation/bytecode/constant/FieldConstantTest.java:91 | two `FieldConstant`s are equal if and only if their field descriptions are |
| `Constant.CachedEquality` | byte-buddy-dep/src/test/java/net/bytebuddy/implementation/bytecode/constant/FieldConstantTest.java:92 | two cached constants are equal if and only if the wrapped `FieldConstant`s are |
| `Constant.RequestMatchesRegistration` | byte-buddy-dep/src/test/java/net/bytebuddy/implementation/bytecode/constant/FieldConstantTest.java:83 | the request a freshly built cached lookup makes equals a request registered with a separately built `FieldConstant` if and only if the two field descriptions are equal |
| `FieldConstantTest.ClassConstantFromDescriptor` | byte-buddy-dep/src/test/java/net/bytebuddy/implementation/bytecode/constant/FieldConstantTest.java:67 | with internal name `foo` and descriptor `Lqux;`, the loaded class constant is the object type `qux`, not `foo` |
| `FieldConstantTest.ConstantCreation` | byte-buddy-dep/src/test/java/net/bytebuddy/implementation/bytecode/constant/FieldConstantTest.java:62-76 | on the fixture the direct apply returns `Size(1, 2)`, emits exactly `ldc qux`, `ldc "bar"` and the `getDeclaredField` call, and makes no request |
| `FieldConstantTest.Cached` | byte-buddy-dep/src/test/java/net/bytebuddy/implementation/bytecode/constant/FieldConstantTest.java:78-87 | on the fixture the cached apply returns `Size(1, 1)`, makes exactly the registered request, and emits exactly `getstatic baz.foobar quxbaz` |

## Left out

- The only source file modelled is the test `FieldConstantTest.java`. The classes `FieldConstant`, `ClassConstant`, `TextConstant`, `MethodInvocation`, `FieldAccess` and `StackManipulation.Size` are not part of this model's sources. The leaf sizes and the `Size` sequencing rule follow that library's behaviour, and the test's totals agree with them.
- Mocking and call verification: the visitor is an object with an appended instruction sequence, and the context is an object with a request log. "No more interactions" is stated as exact equality of those sequences. The fixture's context is a plain function: it answers the registered request with the cache field and any other request with a distinct placeholder field.
- The bytecode encoding: instructions are an abstract datatype, and a type constant is identified by its descriptor. There are no bytes and no constant pool.
- Runtime reflection: what `Class.getDeclaredField` does and how `java.lang.reflect.Field` is described at run time. `Field` is a fixed type description.
- `hashCode` and `toString`: only structural equality is modelled. Dafny datatype equality is value-based, so no hash function is written out.
- Implementation.Context.Cache: how a real context allocates and names the synthetic field, fills the static initializer, or answers a repeated request. The test does not show this, so `resolve` is a parameter. No idempotence, no name uniqueness and no discrimination between different requests is claimed.
- Method invocation kinds other than `invokevirtual` on a class (static, special and interface calls): the lookup uses no other kind.
- Integer width: Byte Buddy's `Size` holds 32-bit Java `int` values, while `Size`, `Net` and `Peak` here are unbounded integers. `AggregateAssociative` and `EffectAppend` are proved over all integers; with wrap-around, `max(a.maximal, a.impact + b.maximal)` would no longer agree with the trace effect. The values this core produces are at most 2 in magnitude, so no behaviour it depends on is lost.
- Leaves.LeafSize: the instance-field read (`getfield`, size `Size(w - 1, w - 1)`) follows the library. The test only exercises a static cache field.
- A field's simple name: the test stubs both the name and the internal name of the cache field as `foobar`. The model uses the internal name.
- Class finalization, static-initializer ordering and concurrency: all outside what the test exercises.
