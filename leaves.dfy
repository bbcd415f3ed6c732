/**
  The single-instruction stack manipulations a field lookup is built from,
  and the compound that runs a list of them in order.

  Each leaf has two descriptions of its stack effect: the `Size` arithmetic it
  reports (`LeafSize`), and the pops and pushes its instruction performs
  (`LeafTrace`). `LeafSizeIsTrace` shows they agree.
*/
module Leaves {
  import opened StackManipulation
  import opened Description
  import opened Asm

  datatype Leaf =
    | ClassConstant(constantType: TypeDescription)  // ldc of a reference type's class
    | TextConstant(text: string)                    // ldc of a string
    | InvokeVirtual(invoked: MethodDescription)     // invokevirtual on a class (not an interface)
    | FieldGetter(field: FieldDescription)          // getstatic or getfield

  /** The size a leaf reports. */
  function LeafSize(l: Leaf): (r: Size)
    ensures Typed(l) ==> Wellformed(r)
    ensures r.maximal <= 2
  {
    match l
    case ClassConstant(_) => Increasing(Single)
    case TextConstant(_) => Increasing(Single)
    case InvokeVirtual(m) =>
      var change := Slots(m.returnType.stackSize) - MethodStackSize(m);
      Size(change, Max(0, change))
    case FieldGetter(f) =>
      var change := Slots(f.fieldType.stackSize) - (if f.isStatic then 0 else 1);
      Size(change, change)
  }

  /** The stack traffic of a leaf's instruction: what it pops, then what it pushes. */
  function LeafTrace(l: Leaf): seq<int>
  {
    match l
    case ClassConstant(_) => [1]
    case TextConstant(_) => [1]
    case InvokeVirtual(m) =>
      var pops: int := MethodStackSize(m);
      [-pops, Slots(m.returnType.stackSize)]
    case FieldGetter(f) =>
      var pushes: int := Slots(f.fieldType.stackSize);
      if f.isStatic then [pushes] else [-1, pushes]
  }

  /** A leaf over a well-typed member: a field's type is never void. */
  predicate Typed(l: Leaf)
  {
    l.FieldGetter? ==> l.field.fieldType.stackSize != Zero
  }

  /** The one instruction a leaf emits. */
  function LeafInstruction(l: Leaf): (r: Instruction)
    ensures r.Ldc? <==> l.ClassConstant? || l.TextConstant?
    ensures r.MethodInsn? <==> l.InvokeVirtual?
    ensures r.MethodInsn? ==> r.opcode == INVOKEVIRTUAL && !r.isInterface
    ensures l.FieldGetter? ==> r.FieldInsn? && (r.opcode == GETSTATIC <==> l.field.isStatic)
  {
    match l
    case ClassConstant(t) => Ldc(TypeValue(TypeOfDescriptor(t.descriptor)))
    case TextConstant(s) => Ldc(StringValue(s))
    case InvokeVirtual(m) => MethodInsn(INVOKEVIRTUAL, m.declaringType.internalName, m.internalName, m.descriptor, false)
    case FieldGetter(f) =>
      FieldInsn(if f.isStatic then GETSTATIC else GETFIELD, f.declaringType.internalName, f.internalName, f.descriptor)
  }

  /** The size a typed leaf reports is the effect of the pops and pushes of its instruction. */
  lemma LeafSizeIsTrace(l: Leaf)
    requires Typed(l)
    ensures LeafSize(l) == Effect(LeafTrace(l))
  {
    var t := LeafTrace(l);
    if |t| == 2 {
      EffectOfPair(t[0], t[1]);
      assert t == [t[0], t[1]];
    } else {
      EffectOfStep(t[0]);
      assert t == [t[0]];
    }
  }

  /** The size of a compound: the leaves' sizes aggregated from the left. */
  function CompoundSize(leaves: seq<Leaf>): (r: Size)
    ensures (forall i :: 0 <= i < |leaves| ==> Typed(leaves[i])) ==> Wellformed(r)
  {
    if leaves == [] then Empty else Aggregate(CompoundSize(leaves[..|leaves| - 1]), LeafSize(leaves[|leaves| - 1]))
  }

  /** The instructions of a compound: each leaf's one instruction, in order. */
  function Instructions(leaves: seq<Leaf>): (r: seq<Instruction>)
    ensures |r| == |leaves|
  {
    if leaves == [] then [] else Instructions(leaves[..|leaves| - 1]) + [LeafInstruction(leaves[|leaves| - 1])]
  }

  /** The instruction at each position is the one its leaf emits. */
  lemma {:induction false} InstructionsAt(leaves: seq<Leaf>, i: nat)
    requires i < |leaves|
    ensures Instructions(leaves)[i] == LeafInstruction(leaves[i])
  {
    var n := |leaves| - 1;
    if i < n {
      InstructionsAt(leaves[..n], i);
    }
  }

  /** The stack traffic of a compound: each leaf's pops and pushes, in order. */
  function CompoundTrace(leaves: seq<Leaf>): seq<int>
  {
    if leaves == [] then [] else CompoundTrace(leaves[..|leaves| - 1]) + LeafTrace(leaves[|leaves| - 1])
  }

  /** One more leaf extends a compound's instructions by its own. */
  lemma InstructionsStep(done: seq<Leaf>, next: Leaf)
    ensures Instructions(done + [next]) == Instructions(done) + [LeafInstruction(next)]
  {
    assert (done + [next])[..|done|] == done;
  }

  /** One more leaf aggregates its size onto a compound's. */
  lemma CompoundSizeStep(done: seq<Leaf>, next: Leaf)
    ensures CompoundSize(done + [next]) == Aggregate(CompoundSize(done), LeafSize(next))
  {
    assert (done + [next])[..|done|] == done;
  }

  /** One more leaf extends a compound's stack traffic by its own. */
  lemma CompoundTraceStep(done: seq<Leaf>, next: Leaf)
    ensures CompoundTrace(done + [next]) == CompoundTrace(done) + LeafTrace(next)
  {
    assert (done + [next])[..|done|] == done;
  }

  /** The size a compound of typed leaves reports is the effect of all its instructions' stack traffic, in order. */
  lemma {:induction false} CompoundSizeIsTrace(leaves: seq<Leaf>)
    requires forall i :: 0 <= i < |leaves| ==> Typed(leaves[i])
    ensures CompoundSize(leaves) == Effect(CompoundTrace(leaves))
  {
    if leaves != [] {
      var init, last := leaves[..|leaves| - 1], leaves[|leaves| - 1];
      assert CompoundSize(leaves) == Aggregate(CompoundSize(init), LeafSize(last));
      assert CompoundTrace(leaves) == CompoundTrace(init) + LeafTrace(last);
      CompoundSizeIsTrace(init);
      LeafSizeIsTrace(last);
      EffectAppend(CompoundTrace(init), LeafTrace(last));
    }
  }

  /** Splitting a compound of typed leaves anywhere and aggregating the two parts gives the same size. */
  lemma CompoundSizeAppend(xs: seq<Leaf>, ys: seq<Leaf>)
    requires forall i :: 0 <= i < |xs| ==> Typed(xs[i])
    requires forall i :: 0 <= i < |ys| ==> Typed(ys[i])
    ensures CompoundSize(xs + ys) == Aggregate(CompoundSize(xs), CompoundSize(ys))
  {
    var zs := xs + ys;
    assert forall i :: 0 <= i < |zs| ==> Typed(zs[i]);
    CompoundSizeIsTrace(xs);
    CompoundSizeIsTrace(ys);
    CompoundSizeIsTrace(zs);
    CompoundTraceAppend(xs, ys);
    EffectAppend(CompoundTrace(xs), CompoundTrace(ys));
  }

  lemma {:induction false} CompoundTraceAppend(xs: seq<Leaf>, ys: seq<Leaf>)
    ensures CompoundTrace(xs + ys) == CompoundTrace(xs) + CompoundTrace(ys)
  {
    if ys == [] {
      assert xs + ys == xs;
    } else {
      var n := |ys| - 1;
      SplitLast(xs, ys);
      CompoundTraceStep(xs + ys[..n], ys[n]);
      CompoundTraceStep(ys[..n], ys[n]);
      CompoundTraceAppend(xs, ys[..n]);
      AppendAssociative(CompoundTrace(xs), CompoundTrace(ys[..n]), LeafTrace(ys[n]));
    }
  }

  /** The instructions of three leaves, spelled out. */
  lemma InstructionsOfThree(leaves: seq<Leaf>)
    requires |leaves| == 3
    ensures Instructions(leaves) == [LeafInstruction(leaves[0]), LeafInstruction(leaves[1]), LeafInstruction(leaves[2])]
  {
    var none: seq<Leaf> := [];
    var one := leaves[..1];
    var two := leaves[..2];
    assert one == none + [leaves[0]];
    assert two == one + [leaves[1]];
    assert leaves == two + [leaves[2]];
    InstructionsStep(none, leaves[0]);
    InstructionsStep(one, leaves[1]);
    InstructionsStep(two, leaves[2]);
  }

  /** The size of three leaves, spelled out. */
  lemma CompoundSizeOfThree(leaves: seq<Leaf>)
    requires |leaves| == 3
    ensures CompoundSize(leaves) == Aggregate(Aggregate(Aggregate(Empty, LeafSize(leaves[0])), LeafSize(leaves[1])), LeafSize(leaves[2]))
  {
    var none: seq<Leaf> := [];
    var one := leaves[..1];
    var two := leaves[..2];
    assert one == none + [leaves[0]];
    assert two == one + [leaves[1]];
    assert leaves == two + [leaves[2]];
    CompoundSizeStep(none, leaves[0]);
    CompoundSizeStep(one, leaves[1]);
    CompoundSizeStep(two, leaves[2]);
  }

  /** The stack traffic of three leaves, spelled out. */
  lemma CompoundTraceOfThree(leaves: seq<Leaf>)
    requires |leaves| == 3
    ensures CompoundTrace(leaves) == LeafTrace(leaves[0]) + LeafTrace(leaves[1]) + LeafTrace(leaves[2])
  {
    var none: seq<Leaf> := [];
    var one := leaves[..1];
    var two := leaves[..2];
    assert one == none + [leaves[0]];
    assert two == one + [leaves[1]];
    assert leaves == two + [leaves[2]];
    CompoundTraceStep(none, leaves[0]);
    CompoundTraceStep(one, leaves[1]);
    CompoundTraceStep(two, leaves[2]);
  }

  /** Emits the leaf's instruction and reports its size. */
  method Apply(l: Leaf, visitor: MethodVisitor) returns (size: Size)
    modifies visitor
    ensures visitor.instructions == old(visitor.instructions) + [LeafInstruction(l)]
    ensures size == LeafSize(l)
  {
    match l {
      case ClassConstant(t) =>
        visitor.VisitLdcInsn(TypeValue(TypeOfDescriptor(t.descriptor)));
      case TextConstant(s) =>
        visitor.VisitLdcInsn(StringValue(s));
      case InvokeVirtual(m) =>
        visitor.VisitMethodInsn(INVOKEVIRTUAL, m.declaringType.internalName, m.internalName, m.descriptor, false);
      case FieldGetter(f) =>
        var opcode := if f.isStatic then GETSTATIC else GETFIELD;
        visitor.VisitFieldInsn(opcode, f.declaringType.internalName, f.internalName, f.descriptor);
    }
    size := LeafSize(l);
  }

  lemma AppendAssociative<T>(a: seq<T>, b: seq<T>, c: seq<T>)
    ensures a + b + c == a + (b + c)
  {
  }

  /** Splitting the last element off the second part of a concatenation. */
  lemma SplitLast<T>(xs: seq<T>, ys: seq<T>)
    requires ys != []
    ensures xs + ys == (xs + ys[..|ys| - 1]) + [ys[|ys| - 1]]
    ensures ys == ys[..|ys| - 1] + [ys[|ys| - 1]]
  {
    var n := |ys| - 1;
    assert ys == ys[..n] + [ys[n]];
    AppendAssociative(xs, ys[..n], [ys[n]]);
  }

  /** Moving the first element of `rest` to the end of `done` keeps their concatenation. */
  lemma ShiftOne<T>(done: seq<T>, rest: seq<T>)
    requires rest != []
    ensures (done + [rest[0]]) + rest[1..] == done + rest
  {
    assert [rest[0]] + rest[1..] == rest;
    AppendAssociative(done, [rest[0]], rest[1..]);
  }

  /** Applies the leaves in order, aggregating their sizes from the left. */
  method ApplyCompound(leaves: seq<Leaf>, visitor: MethodVisitor) returns (size: Size)
    modifies visitor
    ensures visitor.instructions == old(visitor.instructions) + Instructions(leaves)
    ensures size == CompoundSize(leaves)
  {
    ghost var start := visitor.instructions;
    ghost var done: seq<Leaf> := [];
    size := Empty;
    var rest := leaves;
    assert start + Instructions(done) == start by {
      assert Instructions(done) == [];
    }
    while rest != []
      invariant done + rest == leaves
      invariant visitor.instructions == start + Instructions(done)
      invariant size == CompoundSize(done)
    {
      var next := Apply(rest[0], visitor);
      assert visitor.instructions == start + Instructions(done + [rest[0]]) by {
        InstructionsStep(done, rest[0]);
        AppendAssociative(start, Instructions(done), [LeafInstruction(rest[0])]);
      }
      assert Aggregate(size, next) == CompoundSize(done + [rest[0]]) by {
        CompoundSizeStep(done, rest[0]);
      }
      size := Aggregate(size, next);
      ShiftOne(done, rest);
      done := done + [rest[0]];
      rest := rest[1..];
    }
    assert done == leaves;
  }
}
