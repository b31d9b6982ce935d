/**
 * jcompilo's Asm helpers over an abstract model of ASM's tree API: JVM types, instructions,
 * annotation nodes, method nodes and class nodes. Method descriptors are held in parsed form
 * (argument types and return type); MethodDescriptor prints them as the JVM writes them.
 */
module Asm {
  import opened Wrappers

  // Access flags (a Java int; section 4.6 of the JVM specification).
  const ACC_PUBLIC: bv32 := 0x0001
  const ACC_STATIC: bv32 := 0x0008
  const ACC_ABSTRACT: bv32 := 0x0400

  // Opcodes (chapter 6 of the JVM specification).
  const ILOAD: int := 21
  const LLOAD: int := 22
  const FLOAD: int := 23
  const DLOAD: int := 24
  const ALOAD: int := 25
  const DUP: int := 89
  const RETURN: int := 177
  const PUTFIELD: int := 181
  const INVOKESPECIAL: int := 183
  const INVOKESTATIC: int := 184
  const NEW: int := 187

  const CONSTRUCTOR: string := "<init>"
  const STATIC_CONSTRUCTOR: string := "<clinit>"
  const CONSTRUCTOR_NO_ARGUMENTS: string := "()V"

  /** org.objectweb.asm.Type, by sort. */
  datatype Type =
    | VoidType | BooleanType | CharType | ByteType | ShortType | IntType | FloatType | LongType | DoubleType
    | ArrayType(element: Type)
    | ObjectType(internalName: string)

  /** Type.getDescriptor (section 4.3.2 of the JVM specification). */
  function Descriptor(t: Type): string {
    match t
    case VoidType => "V"
    case BooleanType => "Z"
    case CharType => "C"
    case ByteType => "B"
    case ShortType => "S"
    case IntType => "I"
    case FloatType => "F"
    case LongType => "J"
    case DoubleType => "D"
    case ArrayType(e) => "[" + Descriptor(e)
    case ObjectType(n) => "L" + n + ";"
  }

  /** Type.getInternalName: the class name for object types, the descriptor otherwise. */
  function InternalName(t: Type): string {
    if t.ObjectType? then t.internalName else Descriptor(t)
  }

  /** Type.getSize: the number of local-variable slots a value of this type occupies. */
  function Size(t: Type): nat {
    match t
    case VoidType => 0
    case LongType => 2
    case DoubleType => 2
    case _ => 1
  }

  /** Long and double are the two-slot ("wide") types. */
  predicate Wide(t: Type) {
    t == LongType || t == DoubleType
  }

  /** Asm.load(type) = type.getOpcode(ILOAD): the load instruction for a local of this type. */
  function Load(t: Type): (op: int)
    requires t != VoidType
    ensures ILOAD <= op <= ALOAD
  {
    match t
    case LongType => LLOAD
    case FloatType => FLOAD
    case DoubleType => DLOAD
    case ArrayType(_) => ALOAD
    case ObjectType(_) => ALOAD
    case _ => ILOAD
  }

  /** A method descriptor, parsed: Type.getArgumentTypes and Type.getReturnType of `desc`. */
  datatype MethodType = MethodType(arguments: seq<Type>, returnType: Type)

  /** The descriptors of `ts`, concatenated in order. */
  function Descriptors(ts: seq<Type>): string {
    if |ts| == 0 then "" else Descriptors(ts[..|ts| - 1]) + Descriptor(ts[|ts| - 1])
  }

  /** The method descriptor string: "(" + argument descriptors + ")" + return descriptor. */
  function MethodDescriptor(mt: MethodType): string {
    "(" + Descriptors(mt.arguments) + ")" + Descriptor(mt.returnType)
  }

  /** An AnnotationNode: the annotation type's descriptor and its (uninterpreted) attribute values. */
  datatype AnnotationNode = AnnotationNode(desc: string, values: seq<string>)

  /** Instruction nodes of an InsnList. */
  datatype Insn =
    | InsnNode(opcode: int)
    | VarInsn(opcode: int, slot: nat)
    | TypeInsn(opcode: int, typeName: string)
    | FieldInsn(opcode: int, owner: string, name: string, fieldDesc: string)
    | MethodInsn(opcode: int, owner: string, name: string, desc: MethodType)
    | LabelNode(id: nat)
    | LineNumberNode(line: nat, start: nat)
    | OtherInsn(opcode: int)

  /**
   * A MethodNode. ASM leaves an annotation list null (None) when the method has no annotation
   * of that retention.
   */
  datatype MethodNode = MethodNode(
    access: bv32,
    name: string,
    desc: MethodType,
    instructions: seq<Insn>,
    visibleAnnotations: Option<seq<AnnotationNode>>,
    invisibleAnnotations: Option<seq<AnnotationNode>>)

  /** A ClassNode: access flags, internal name, super class and its methods in order. */
  datatype ClassNode = ClassNode(access: bv32, name: string, superName: string, methods: seq<MethodNode>)

  /** Asm.seq(list): a null list reads as the empty sequence. */
  function Nodes(list: Option<seq<AnnotationNode>>): seq<AnnotationNode> {
    if list.Some? then list.value else []
  }

  /** Asm.annotations: the visible annotations followed by the invisible ones, each in its own order. */
  function Annotations(m: MethodNode): (r: seq<AnnotationNode>)
    ensures |r| == |Nodes(m.visibleAnnotations)| + |Nodes(m.invisibleAnnotations)|
    ensures r[..|Nodes(m.visibleAnnotations)|] == Nodes(m.visibleAnnotations)
    ensures r[|Nodes(m.visibleAnnotations)|..] == Nodes(m.invisibleAnnotations)
  {
    Nodes(m.visibleAnnotations) + Nodes(m.invisibleAnnotations)
  }

  /** predicates.annotation(T): the node's descriptor is that of annotation type T. */
  predicate IsAnnotation(a: AnnotationNode, t: Type) {
    a.desc == Descriptor(t)
  }

  /** Asm.hasAnnotation(m, T): some annotation of m, visible or invisible, is of type T. */
  predicate HasAnnotation(m: MethodNode, t: Type) {
    exists a :: a in Annotations(m) && IsAnnotation(a, t)
  }

  /** Sequence.find(annotation(T)), as a position: the first node of type T, if any (see FindAnnotationFirst). */
  function FindAnnotation(s: seq<AnnotationNode>, t: Type): (r: Option<nat>)
    ensures r.Some? ==> r.value < |s| && IsAnnotation(s[r.value], t)
  {
    if |s| == 0 then None
    else if IsAnnotation(s[0], t) then Some(0)
    else match FindAnnotation(s[1..], t)
      case None => None
      case Some(k) => Some(k + 1)
  }

  /** find fails exactly when no node has type T, and otherwise no earlier node has type T. */
  lemma {:induction false} FindAnnotationFirst(s: seq<AnnotationNode>, t: Type)
    ensures FindAnnotation(s, t).None? <==> forall i :: 0 <= i < |s| ==> !IsAnnotation(s[i], t)
    ensures FindAnnotation(s, t).Some? ==> forall j :: 0 <= j < FindAnnotation(s, t).value ==> !IsAnnotation(s[j], t)
  {
    if |s| > 0 && !IsAnnotation(s[0], t) {
      var rest := s[1..];
      FindAnnotationFirst(rest, t);
      assert forall i :: 0 <= i < |rest| ==> rest[i] == s[i + 1];
    }
  }

  /** hasAnnotation holds exactly when find returns a node. */
  lemma HasAnnotationIffFound(m: MethodNode, t: Type)
    ensures HasAnnotation(m, t) <==> FindAnnotation(Annotations(m), t).Some?
  {
    var s := Annotations(m);
    FindAnnotationFirst(s, t);
    if HasAnnotation(m, t) {
      var a :| a in s && IsAnnotation(a, t);
      var i :| 0 <= i < |s| && s[i] == a;
    }
    if FindAnnotation(s, t).Some? {
      assert s[FindAnnotation(s, t).value] in s;
    }
  }

  /** Access-flag tests: the ACC_STATIC or ACC_ABSTRACT bit is set. */
  predicate IsStatic(m: MethodNode) {
    m.access & ACC_STATIC != 0
  }

  predicate IsAbstract(m: MethodNode) {
    m.access & ACC_ABSTRACT != 0
  }

  predicate IsPublic(m: MethodNode) {
    m.access & ACC_PUBLIC != 0
  }

  /** isStatic(MethodInsnNode): the call is an INVOKESTATIC. */
  predicate IsStaticCall(insn: Insn)
    requires insn.MethodInsn?
  {
    insn.opcode == INVOKESTATIC
  }

  /** argumentTypes(MethodNode). */
  function ArgumentTypes(m: MethodNode): seq<Type> {
    m.desc.arguments
  }

  /** argumentTypes(MethodInsnNode). */
  function CallArgumentTypes(insn: Insn): seq<Type>
    requires insn.MethodInsn?
  {
    insn.desc.arguments
  }

  /** numberOfArguments(MethodInsnNode): as many as argumentTypes lists. */
  function NumberOfArguments(insn: Insn): (n: nat)
    requires insn.MethodInsn?
    ensures n == |CallArgumentTypes(insn)|
  {
    |insn.desc.arguments|
  }

  /**
   * initialLocalVariables: the types of the locals a method starts with, its arguments, preceded
   * by the class's own type unless the method is static.
   */
  function InitialLocalVariables(cls: ClassNode, m: MethodNode): (r: seq<Type>)
    ensures |r| == |ArgumentTypes(m)| + (if IsStatic(m) then 0 else 1)
    ensures IsStatic(m) ==> r == ArgumentTypes(m)
    ensures !IsStatic(m) ==> r[0] == ObjectType(cls.name) && r[1..] == ArgumentTypes(m)
  {
    if IsStatic(m) then ArgumentTypes(m) else [ObjectType(cls.name)] + ArgumentTypes(m)
  }

  /** The first components of a sequence of pairs. */
  function Firsts<A, B>(pairs: seq<(A, B)>): (r: seq<A>)
    ensures |r| == |pairs| && forall i :: 0 <= i < |pairs| ==> r[i] == pairs[i].0
  {
    seq(|pairs|, i requires 0 <= i < |pairs| => pairs[i].0)
  }

  /** The second components of a sequence of pairs (Callables.second). */
  function Seconds<A, B>(pairs: seq<(A, B)>): (r: seq<B>)
    ensures |r| == |pairs| && forall i :: 0 <= i < |pairs| ==> r[i] == pairs[i].1
  {
    seq(|pairs|, i requires 0 <= i < |pairs| => pairs[i].1)
  }

  /** argumentSignature: "(", the descriptors of the pairs' types in order, then ")V". */
  function ArgumentSignature<A>(pairs: seq<(A, Type)>): (s: string)
    ensures s == MethodDescriptor(MethodType(Seconds(pairs), VoidType))
    ensures s[0] == '(' && s[|s| - 2..] == ")V"
  {
    "(" + Descriptors(Seconds(pairs)) + ")V"
  }

  lemma NoArgumentsSignature()
    ensures MethodDescriptor(MethodType([], VoidType)) == CONSTRUCTOR_NO_ARGUMENTS
  {
  }

  // ----- Local-variable layout (section 2.6.1 of the JVM specification) -----

  /** The number of slots the given argument types occupy. */
  function Slots(ts: seq<Type>): nat {
    if |ts| == 0 then 0 else Slots(ts[..|ts| - 1]) + Size(ts[|ts| - 1])
  }

  /** What each slot holds: the start slot of a value holds its type, the second slot of a wide value holds None. */
  function Cells(t: Type): seq<Option<Type>> {
    if Size(t) == 2 then [Some(t), None] else if Size(t) == 1 then [Some(t)] else []
  }

  function ArgumentLayout(ts: seq<Type>): (r: seq<Option<Type>>)
    ensures |r| == Slots(ts)
  {
    if |ts| == 0 then [] else ArgumentLayout(ts[..|ts| - 1]) + Cells(ts[|ts| - 1])
  }

  /** The locals of an instance method of class `owner` on entry: `this`, then the arguments. */
  function LocalFrame(owner: string, ts: seq<Type>): seq<Option<Type>> {
    [Some(ObjectType(owner))] + ArgumentLayout(ts)
  }

  /** The slot at which argument i of an instance method starts. */
  function ArgumentSlot(ts: seq<Type>, i: nat): nat
    requires i <= |ts|
  {
    1 + Slots(ts[..i])
  }

  /** The slot the source's constructor builder loads field i from. */
  function AsWrittenSlot(i: nat): nat {
    i + 1
  }

  predicate NoVoid(ts: seq<Type>) {
    forall k :: 0 <= k < |ts| ==> ts[k] != VoidType
  }

  lemma SlotsStep(ts: seq<Type>, i: nat)
    requires i < |ts|
    ensures Slots(ts[..i + 1]) == Slots(ts[..i]) + Size(ts[i])
  {
    assert ts[..i + 1][..i] == ts[..i];
  }

  lemma {:induction false} SlotsMonotone(ts: seq<Type>, i: nat, j: nat)
    requires i <= j <= |ts|
    ensures Slots(ts[..i]) <= Slots(ts[..j])
    decreases j - i
  {
    if i < j {
      SlotsStep(ts, j - 1);
      SlotsMonotone(ts, i, j - 1);
    }
  }

  /** The start slot of every (non-void) argument holds that argument's type. */
  lemma {:induction false} SlotHoldsArgument(ts: seq<Type>, i: nat)
    requires i < |ts| && ts[i] != VoidType
    ensures Slots(ts[..i]) < |ArgumentLayout(ts)|
    ensures ArgumentLayout(ts)[Slots(ts[..i])] == Some(ts[i])
    decreases |ts|
  {
    var n := |ts| - 1;
    var init := ts[..n];
    assert ArgumentLayout(ts) == ArgumentLayout(init) + Cells(ts[n]);
    SlotsStep(ts, i);
    SlotsMonotone(ts, i + 1, |ts|);
    assert ts[..|ts|] == ts;
    if i == n {
      assert ts[..i] == init;
    } else {
      assert init[..i] == ts[..i];
      assert init[i] == ts[i];
      SlotHoldsArgument(init, i);
      SlotsStep(init, i);
      SlotsMonotone(init, i + 1, n);
    }
  }

  lemma ArgumentSlotInFrame(owner: string, ts: seq<Type>, i: nat)
    requires i < |ts| && ts[i] != VoidType
    ensures ArgumentSlot(ts, i) < |LocalFrame(owner, ts)|
    ensures LocalFrame(owner, ts)[ArgumentSlot(ts, i)] == Some(ts[i])
  {
    SlotHoldsArgument(ts, i);
    SlotsStep(ts, i);
    SlotsMonotone(ts, i + 1, |ts|);
    assert ts[..|ts|] == ts;
  }

  /**
   * The source's slot i + 1 is the right one exactly when no long or double comes before
   * argument i.
   */
  lemma {:induction false} AsWrittenSlotIffNarrow(ts: seq<Type>, i: nat)
    requires i <= |ts| && NoVoid(ts)
    ensures ArgumentSlot(ts, i) == AsWrittenSlot(i) <==> forall k :: 0 <= k < i ==> !Wide(ts[k])
    ensures ArgumentSlot(ts, i) >= AsWrittenSlot(i)
  {
    if i > 0 {
      AsWrittenSlotIffNarrow(ts, i - 1);
      SlotsStep(ts, i - 1);
    }
  }

  /** A constructor over (long a, int b): the source loads b from slot 2, the second half of a; b lives in slot 3. */
  lemma AsWrittenSlotMisreadsAfterLong()
    ensures var ts := [LongType, IntType];
      && AsWrittenSlot(1) == 2
      && LocalFrame("C", ts) == [Some(ObjectType("C")), Some(LongType), None, Some(IntType)]
      && LocalFrame("C", ts)[AsWrittenSlot(1)] != Some(IntType)
      && ArgumentSlot(ts, 1) == 3
  {
    var ts := [LongType, IntType];
    assert ts[..1] == [LongType];
    assert ts[..1][..0] == [];
    assert ArgumentLayout(ts[..1]) == [Some(LongType), None];
  }

  // ----- The builders -----

  /** The slots the source's constructor builder loads the fields from: 1, 2, 3, ... */
  function AsWrittenSlots(n: nat): (r: seq<nat>)
    ensures |r| == n && forall i :: 0 <= i < n ==> r[i] == AsWrittenSlot(i)
  {
    seq(n, i requires 0 <= i < n => AsWrittenSlot(i))
  }

  /** The slots where the JVM places the arguments of an instance method with these types. */
  function ArgumentSlots(ts: seq<Type>): (r: seq<nat>)
    ensures |r| == |ts| && forall i :: 0 <= i < |ts| ==> r[i] == ArgumentSlot(ts, i)
  {
    seq(|ts|, i requires 0 <= i < |ts| => ArgumentSlot(ts, i))
  }

  /** For fields 0..n-1: load `this`, load local slots[i] with the field's load opcode, store into the field. */
  function FieldStores(name: string, fields: seq<(string, Type)>, slots: seq<nat>, n: nat): seq<Insn>
    requires n <= |fields| == |slots| && NoVoid(Seconds(fields))
  {
    if n == 0 then []
    else
      var (field, t) := fields[n - 1];
      assert t == Seconds(fields)[n - 1];
      FieldStores(name, fields, slots, n - 1) + [VarInsn(ALOAD, 0), VarInsn(Load(t), slots[n - 1]), FieldInsn(PUTFIELD, name, field, Descriptor(t))]
  }

  /** The whole constructor body: ALOAD 0, INVOKESPECIAL super.<init>()V, the field stores, RETURN. */
  function ConstructorInstructions(superType: Type, name: string, fields: seq<(string, Type)>, slots: seq<nat>): seq<Insn>
    requires |fields| == |slots| && NoVoid(Seconds(fields))
  {
    [VarInsn(ALOAD, 0), MethodInsn(INVOKESPECIAL, InternalName(superType), CONSTRUCTOR, MethodType([], VoidType))]
    + FieldStores(name, fields, slots, |fields|) + [InsnNode(RETURN)]
  }

  lemma {:induction false} FieldStoresAt(name: string, fields: seq<(string, Type)>, slots: seq<nat>, n: nat, i: nat)
    requires n <= |fields| == |slots| && NoVoid(Seconds(fields)) && i < n
    ensures |FieldStores(name, fields, slots, n)| == 3 * n
    ensures FieldStores(name, fields, slots, n)[3 * i] == VarInsn(ALOAD, 0)
    ensures FieldStores(name, fields, slots, n)[3 * i + 1] == VarInsn(Load(fields[i].1), slots[i])
    ensures FieldStores(name, fields, slots, n)[3 * i + 2] == FieldInsn(PUTFIELD, name, fields[i].0, Descriptor(fields[i].1))
    decreases n
  {
    assert Seconds(fields)[i] == fields[i].1;
    if i < n - 1 {
      FieldStoresAt(name, fields, slots, n - 1, i);
    } else if n > 1 {
      FieldStoresAt(name, fields, slots, n - 1, 0);
    }
  }

  /**
   * The shape of a constructor body over n fields: 3n + 3 instructions, ALOAD 0 and the super call,
   * three instructions per field in field order, and RETURN last.
   */
  lemma ConstructorShape(superType: Type, name: string, fields: seq<(string, Type)>, slots: seq<nat>)
    requires |fields| == |slots| && NoVoid(Seconds(fields))
    ensures var insns := ConstructorInstructions(superType, name, fields, slots);
      && |insns| == 3 * |fields| + 3
      && insns[0] == VarInsn(ALOAD, 0)
      && insns[1] == MethodInsn(INVOKESPECIAL, InternalName(superType), CONSTRUCTOR, MethodType([], VoidType))
      && (forall i :: 0 <= i < |fields| ==>
            && insns[2 + 3 * i] == VarInsn(ALOAD, 0)
            && insns[3 + 3 * i] == VarInsn(Load(fields[i].1), slots[i])
            && insns[4 + 3 * i] == FieldInsn(PUTFIELD, name, fields[i].0, Descriptor(fields[i].1)))
      && insns[3 * |fields| + 2] == InsnNode(RETURN)
  {
    var n := |fields|;
    var stores := FieldStores(name, fields, slots, n);
    var insns := ConstructorInstructions(superType, name, fields, slots);
    assert insns == [VarInsn(ALOAD, 0), MethodInsn(INVOKESPECIAL, InternalName(superType), CONSTRUCTOR, MethodType([], VoidType))] + stores + [InsnNode(RETURN)];
    if n > 0 {
      FieldStoresAt(name, fields, slots, n, 0);
    }
    assert |stores| == 3 * n;
    forall i | 0 <= i < n
      ensures insns[2 + 3 * i] == VarInsn(ALOAD, 0)
      ensures insns[3 + 3 * i] == VarInsn(Load(fields[i].1), slots[i])
      ensures insns[4 + 3 * i] == FieldInsn(PUTFIELD, name, fields[i].0, Descriptor(fields[i].1))
    {
      FieldStoresAt(name, fields, slots, n, i);
      assert insns[2 + 3 * i] == stores[3 * i];
      assert insns[3 + 3 * i] == stores[3 * i + 1];
      assert insns[4 + 3 * i] == stores[3 * i + 2];
    }
  }

  /**
   * Asm.constructor as the source writes it: a public <init> with descriptor argumentSignature(fields)
   * whose body calls the super class's no-argument constructor, then for each field i loads `this`
   * and local i + 1 and stores it into the field, then returns (see ConstructorShape).
   */
  method ConstructorAsWritten(superType: Type, name: string, fields: seq<(string, Type)>) returns (m: MethodNode)
    requires NoVoid(Seconds(fields))
    ensures m.access == ACC_PUBLIC && m.name == CONSTRUCTOR
    ensures m.desc == MethodType(Seconds(fields), VoidType)
    ensures MethodDescriptor(m.desc) == ArgumentSignature(fields)
    ensures m.visibleAnnotations == None && m.invisibleAnnotations == None
    ensures m.instructions == ConstructorInstructions(superType, name, fields, AsWrittenSlots(|fields|))
  {
    var insns := [VarInsn(ALOAD, 0), MethodInsn(INVOKESPECIAL, InternalName(superType), CONSTRUCTOR, MethodType([], VoidType))];
    var i := 0;
    while i < |fields|
      invariant 0 <= i <= |fields|
      invariant insns == [VarInsn(ALOAD, 0), MethodInsn(INVOKESPECIAL, InternalName(superType), CONSTRUCTOR, MethodType([], VoidType))]
                         + FieldStores(name, fields, AsWrittenSlots(|fields|), i)
    {
      var (field, t) := fields[i];
      assert t == Seconds(fields)[i];
      insns := insns + [VarInsn(ALOAD, 0), VarInsn(Load(t), i + 1), FieldInsn(PUTFIELD, name, field, Descriptor(t))];
      i := i + 1;
    }
    insns := insns + [InsnNode(RETURN)];
    m := MethodNode(ACC_PUBLIC, CONSTRUCTOR, MethodType(Seconds(fields), VoidType), insns, None, None);
  }

  /**
   * Asm.constructor with the local slots corrected: field i is loaded from the slot where the JVM
   * places argument i, one past the slots of `this` and of the arguments before it; each load
   * then reads a local that holds exactly that field's type.
   */
  method Constructor(superType: Type, name: string, fields: seq<(string, Type)>) returns (m: MethodNode)
    requires NoVoid(Seconds(fields))
    ensures m.access == ACC_PUBLIC && m.name == CONSTRUCTOR
    ensures IsPublic(m) && !IsStatic(m) && !IsAbstract(m)
    ensures m.desc == MethodType(Seconds(fields), VoidType)
    ensures MethodDescriptor(m.desc) == ArgumentSignature(fields)
    ensures m.visibleAnnotations == None && m.invisibleAnnotations == None
    ensures m.instructions == ConstructorInstructions(superType, name, fields, ArgumentSlots(Seconds(fields)))
    ensures forall i :: 0 <= i < |fields| ==>
              ArgumentSlot(Seconds(fields), i) < |LocalFrame(name, Seconds(fields))| &&
              LocalFrame(name, Seconds(fields))[ArgumentSlot(Seconds(fields), i)] == Some(fields[i].1)
  {
    ghost var ts := Seconds(fields);
    var insns := [VarInsn(ALOAD, 0), MethodInsn(INVOKESPECIAL, InternalName(superType), CONSTRUCTOR, MethodType([], VoidType))];
    var i := 0;
    var slot := 1;
    while i < |fields|
      invariant 0 <= i <= |fields|
      invariant slot == ArgumentSlot(ts, i)
      invariant insns == [VarInsn(ALOAD, 0), MethodInsn(INVOKESPECIAL, InternalName(superType), CONSTRUCTOR, MethodType([], VoidType))]
                         + FieldStores(name, fields, ArgumentSlots(ts), i)
    {
      var (field, t) := fields[i];
      assert t == ts[i];
      insns := insns + [VarInsn(ALOAD, 0), VarInsn(Load(t), slot), FieldInsn(PUTFIELD, name, field, Descriptor(t))];
      SlotsStep(ts, i);
      slot := slot + Size(t);
      i := i + 1;
    }
    insns := insns + [InsnNode(RETURN)];
    m := MethodNode(ACC_PUBLIC, CONSTRUCTOR, MethodType(Seconds(fields), VoidType), insns, None, None);
    forall i | 0 <= i < |fields|
      ensures ArgumentSlot(ts, i) < |LocalFrame(name, ts)|
      ensures LocalFrame(name, ts)[ArgumentSlot(ts, i)] == Some(fields[i].1)
    {
      ArgumentSlotInFrame(name, ts, i);
    }
  }

  /** The instruction lists concatenated in order. */
  function Flatten(lists: seq<seq<Insn>>): seq<Insn> {
    if |lists| == 0 then [] else Flatten(lists[..|lists| - 1]) + lists[|lists| - 1]
  }

  /** The total length of the lists. */
  function TotalLength(lists: seq<seq<Insn>>): nat {
    if |lists| == 0 then 0 else TotalLength(lists[..|lists| - 1]) + |lists[|lists| - 1]|
  }

  lemma {:induction false} FlattenLength(lists: seq<seq<Insn>>)
    ensures |Flatten(lists)| == TotalLength(lists)
  {
    if |lists| > 0 {
      FlattenLength(lists[..|lists| - 1]);
    }
  }

  /** List i sits in the flattening right after the lists before it. */
  lemma {:induction false} FlattenAt(lists: seq<seq<Insn>>, i: nat)
    requires i < |lists|
    ensures TotalLength(lists[..i]) + |lists[i]| <= |Flatten(lists)|
    ensures Flatten(lists)[TotalLength(lists[..i])..TotalLength(lists[..i]) + |lists[i]|] == lists[i]
    decreases |lists|
  {
    var n := |lists| - 1;
    var init := lists[..n];
    FlattenLength(init);
    if i == n {
      assert lists[..i] == init;
    } else {
      assert init[..i] == lists[..i];
      FlattenAt(init, i);
    }
  }

  /**
   * Asm.construct: NEW t, DUP, each argument's instructions in order, then the call of t's
   * constructor whose descriptor is argumentSignature(arguments).
   */
  method Construct(t: Type, arguments: seq<(seq<Insn>, Type)>) returns (insns: seq<Insn>)
    ensures insns == [TypeInsn(NEW, InternalName(t)), InsnNode(DUP)] + Flatten(Firsts(arguments))
                     + [MethodInsn(INVOKESPECIAL, InternalName(t), CONSTRUCTOR, MethodType(Seconds(arguments), VoidType))]
    ensures |insns| == 3 + TotalLength(Firsts(arguments))
    ensures MethodDescriptor(insns[|insns| - 1].desc) == ArgumentSignature(arguments)
  {
    ghost var lists := Firsts(arguments);
    insns := [TypeInsn(NEW, InternalName(t)), InsnNode(DUP)];
    var i := 0;
    while i < |arguments|
      invariant 0 <= i <= |arguments|
      invariant insns == [TypeInsn(NEW, InternalName(t)), InsnNode(DUP)] + Flatten(lists[..i])
    {
      assert lists[..i + 1][..i] == lists[..i];
      insns := insns + arguments[i].0;
      i := i + 1;
    }
    assert lists[..|arguments|] == lists;
    insns := insns + [MethodInsn(INVOKESPECIAL, InternalName(t), CONSTRUCTOR, MethodType(Seconds(arguments), VoidType))];
    FlattenLength(lists);
  }
}
