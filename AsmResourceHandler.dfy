/**
 * AsmResourceHandler: rewrites the methods of a compiled class that carry registered annotations.
 * For every method in order, and for every (annotation type, processor) registration in list order,
 * a method that carries the annotation at that moment is passed to the processor, and afterwards the
 * first node of that annotation type is removed from the method's invisible annotations.
 * Reading and writing class files (ClassReader, ClassWriter, CheckClassAdapter) are parameters.
 */
module AsmResourceHandler {
  import opened Wrappers
  import opened Strings
  import opened Asm
  import opened Resource

  /** AsmMethodHandler.process(classNode, method): the method as the processor leaves it. */
  type Processor = (ClassNode, MethodNode) -> MethodNode

  datatype Registration = Registration(annotation: Type, process: Processor)

  datatype Handler = Handler(processors: seq<Registration>, verify: bool)

  /** What `handle` throws: an unreadable class, `get()` on a find that found nothing, `remove` on a null list, a failed check. */
  datatype HandleError = MalformedClass | AnnotationNotFound | NullInvisibleAnnotations | VerificationFailed

  // ----- Construction -----

  /** asmResourceHandler(processors, verify): the registrations in the order given. */
  function Create(processors: seq<Registration>, verify: bool): (h: Handler)
    ensures h.processors == processors && h.verify == verify
  {
    Handler(processors, verify)
  }

  /** asmResourceHandler(processors): verification follows the debugging setting. */
  function CreateDebugging(processors: seq<Registration>, debugging: bool): (h: Handler)
    ensures h.processors == processors && h.verify == debugging
  {
    Create(processors, debugging)
  }

  /** asmResourceHandler(verify): no registrations. */
  function CreateEmpty(verify: bool): (h: Handler)
    ensures h.processors == [] && h.verify == verify
  {
    Create([], verify)
  }

  /** asmResourceHandler(): no registrations, verification follows the debugging setting. */
  function CreateDefault(debugging: bool): (h: Handler)
    ensures h.processors == [] && h.verify == debugging
  {
    CreateEmpty(debugging)
  }

  /** add: a new handler with the registration consed in front, so it is consulted before the older ones. */
  function Add(h: Handler, annotation: Type, process: Processor): (h': Handler)
    ensures h'.processors == [Registration(annotation, process)] + h.processors
    ensures |h'.processors| == |h.processors| + 1 && h'.processors[1..] == h.processors
    ensures h'.verify == h.verify
  {
    Create([Registration(annotation, process)] + h.processors, h.verify)
  }

  /** matches: the resource is a class file. */
  predicate Matches(name: string) {
    EndsWith(name, ".class")
  }

  lemma MatchesIffClassFile(name: string)
    ensures Matches(name) <==> exists base :: name == base + ".class"
  {
    EndsWithIffConcat(name, ".class");
  }

  // ----- Removing the consumed annotation -----

  function RemoveAt(s: seq<AnnotationNode>, j: nat): (r: seq<AnnotationNode>)
    requires j < |s|
    ensures |r| == |s| - 1
  {
    s[..j] + s[j + 1..]
  }

  /** No visible annotation of type t. */
  predicate NoneVisible(m: MethodNode, t: Type) {
    forall i :: 0 <= i < |Nodes(m.visibleAnnotations)| ==> !IsAnnotation(Nodes(m.visibleAnnotations)[i], t)
  }

  /**
   * The removal after a processor ran, by cases: a visible node of type t comes first in annotations(method)
   * and is not in the invisible list, so nothing is removed (unless that list is null); otherwise the first
   * invisible node of type t goes; with none at all, `get()` fails.
   */
  function RemoveConsumed(m: MethodNode, t: Type): Result<MethodNode, HandleError> {
    if !NoneVisible(m, t) then
      if m.invisibleAnnotations.None? then Failure(NullInvisibleAnnotations) else Success(m)
    else
      match FindAnnotation(Nodes(m.invisibleAnnotations), t)
      case None => Failure(AnnotationNotFound)
      case Some(j) => Success(m.(invisibleAnnotations := Some(RemoveAt(m.invisibleAnnotations.value, j))))
  }

  /**
   * method.invisibleAnnotations.remove(annotations(method).find(annotation(t)).get()), as the source writes it:
   * find the first node of type t in visible ++ invisible; List.remove compares by identity, so a visible
   * node found leaves the invisible list as it was. The argument is evaluated before the null receiver fails.
   */
  function RemoveFound(m: MethodNode, t: Type): Result<MethodNode, HandleError> {
    match FindAnnotation(Annotations(m), t)
    case None => Failure(AnnotationNotFound)
    case Some(i) =>
      if m.invisibleAnnotations.None? then Failure(NullInvisibleAnnotations)
      else if i < |Nodes(m.visibleAnnotations)| then Success(m)
      else Success(m.(invisibleAnnotations := Some(RemoveAt(m.invisibleAnnotations.value, i - |Nodes(m.visibleAnnotations)|))))
  }

  /** Behind a prefix without type t, the first node of type t is the first one in the rest, shifted. */
  lemma {:induction false} FindAfterPrefix(p: seq<AnnotationNode>, q: seq<AnnotationNode>, t: Type)
    requires forall i :: 0 <= i < |p| ==> !IsAnnotation(p[i], t)
    ensures FindAnnotation(p + q, t) == if FindAnnotation(q, t).Some? then Some(|p| + FindAnnotation(q, t).value) else None
  {
    if |p| == 0 {
      assert p + q == q;
    } else {
      assert (p + q)[1..] == p[1..] + q;
      assert !IsAnnotation(p[0], t);
      FindAfterPrefix(p[1..], q, t);
    }
  }

  /** The case split is the source's find-then-remove. */
  lemma RemoveConsumedIsRemoveFound(m: MethodNode, t: Type)
    ensures RemoveConsumed(m, t) == RemoveFound(m, t)
  {
    var vis := Nodes(m.visibleAnnotations);
    var s := Annotations(m);
    if !NoneVisible(m, t) {
      var v :| 0 <= v < |vis| && IsAnnotation(vis[v], t);
      assert s[v] == vis[v];
      FindAnnotationFirst(s, t);
    } else {
      FindAfterPrefix(vis, Nodes(m.invisibleAnnotations), t);
    }
  }

  /** hasAnnotation splits into a visible node of type t or an invisible one. */
  lemma HasAnnotationSplit(m: MethodNode, t: Type)
    ensures HasAnnotation(m, t) <==> !NoneVisible(m, t) || FindAnnotation(Nodes(m.invisibleAnnotations), t).Some?
  {
    var vis := Nodes(m.visibleAnnotations);
    var inv := Nodes(m.invisibleAnnotations);
    var s := Annotations(m);
    FindAnnotationFirst(inv, t);
    if HasAnnotation(m, t) {
      var a :| a in s && IsAnnotation(a, t);
      var i :| 0 <= i < |s| && s[i] == a;
      if i >= |vis| { assert inv[i - |vis|] == a; }
    }
    if !NoneVisible(m, t) {
      var v :| 0 <= v < |vis| && IsAnnotation(vis[v], t);
      assert s[v] == vis[v] && s[v] in s;
    }
    if FindAnnotation(inv, t).Some? {
      var j := FindAnnotation(inv, t).value;
      assert s[|vis| + j] == inv[j] && s[|vis| + j] in s;
    }
  }

  /** The two ways removal fails: the annotation is not there, or it is there and the invisible list is null. */
  lemma RemoveConsumedErrors(m: MethodNode, t: Type)
    ensures RemoveConsumed(m, t) == Failure(AnnotationNotFound) <==> !HasAnnotation(m, t)
    ensures RemoveConsumed(m, t) == Failure(NullInvisibleAnnotations) <==> HasAnnotation(m, t) && m.invisibleAnnotations.None?
    ensures RemoveConsumed(m, t).Success? ==> RemoveConsumed(m, t).value.invisibleAnnotations.Some?
  {
    HasAnnotationSplit(m, t);
  }

  /**
   * Removal takes out of the invisible list exactly its first node of type t when no visible node has
   * type t, leaves the method as it was when one does, and changes nothing else.
   */
  lemma RemoveConsumedSpec(m: MethodNode, t: Type)
    requires RemoveConsumed(m, t).Success?
    ensures var m' := RemoveConsumed(m, t).value;
      && m' == m.(invisibleAnnotations := m'.invisibleAnnotations)
      && (!NoneVisible(m, t) ==> m' == m)
      && (NoneVisible(m, t) ==>
            && m.invisibleAnnotations.Some? && m'.invisibleAnnotations.Some?
            && exists j :: 0 <= j < |m.invisibleAnnotations.value|
                 && IsAnnotation(m.invisibleAnnotations.value[j], t)
                 && (forall l :: 0 <= l < j ==> !IsAnnotation(m.invisibleAnnotations.value[l], t))
                 && m'.invisibleAnnotations.value == m.invisibleAnnotations.value[..j] + m.invisibleAnnotations.value[j + 1..])
  {
    if NoneVisible(m, t) {
      FindAnnotationFirst(Nodes(m.invisibleAnnotations), t);
      var j := FindAnnotation(Nodes(m.invisibleAnnotations), t).value;
      assert RemoveConsumed(m, t).value.invisibleAnnotations.value == m.invisibleAnnotations.value[..j] + m.invisibleAnnotations.value[j + 1..];
    }
  }

  /** The number of nodes of type t. */
  function Count(s: seq<AnnotationNode>, t: Type): nat {
    if |s| == 0 then 0 else (if IsAnnotation(s[0], t) then 1 else 0) + Count(s[1..], t)
  }

  lemma {:induction false} CountPositive(s: seq<AnnotationNode>, t: Type)
    ensures Count(s, t) > 0 <==> exists i :: 0 <= i < |s| && IsAnnotation(s[i], t)
  {
    if |s| > 0 {
      CountPositive(s[1..], t);
      if exists i :: 0 <= i < |s| && IsAnnotation(s[i], t) {
        var i :| 0 <= i < |s| && IsAnnotation(s[i], t);
        if i > 0 { assert s[1..][i - 1] == s[i]; }
      }
      if exists i :: 0 <= i < |s[1..]| && IsAnnotation(s[1..][i], t) {
        var i :| 0 <= i < |s[1..]| && IsAnnotation(s[1..][i], t);
        assert s[i + 1] == s[1..][i];
      }
    }
  }

  lemma {:induction false} CountConcat(s: seq<AnnotationNode>, u: seq<AnnotationNode>, t: Type)
    ensures Count(s + u, t) == Count(s, t) + Count(u, t)
  {
    if |s| == 0 {
      assert s + u == u;
    } else {
      assert (s + u)[1..] == s[1..] + u;
      CountConcat(s[1..], u, t);
    }
  }

  lemma CountRemoveAt(s: seq<AnnotationNode>, j: nat, t: Type)
    requires j < |s|
    ensures Count(RemoveAt(s, j), t) == Count(s, t) - (if IsAnnotation(s[j], t) then 1 else 0)
  {
    assert s == s[..j] + [s[j]] + s[j + 1..];
    CountConcat(s[..j] + [s[j]], s[j + 1..], t);
    CountConcat(s[..j], [s[j]], t);
    CountConcat(s[..j], s[j + 1..], t);
  }

  /** hasAnnotation in terms of the counts in the two lists. */
  lemma HasAnnotationIffCount(m: MethodNode, t: Type)
    ensures HasAnnotation(m, t) <==> Count(Nodes(m.visibleAnnotations), t) + Count(Nodes(m.invisibleAnnotations), t) > 0
    ensures NoneVisible(m, t) <==> Count(Nodes(m.visibleAnnotations), t) == 0
  {
    var s := Annotations(m);
    CountConcat(Nodes(m.visibleAnnotations), Nodes(m.invisibleAnnotations), t);
    CountPositive(s, t);
    CountPositive(Nodes(m.visibleAnnotations), t);
    if HasAnnotation(m, t) {
      var a :| a in s && IsAnnotation(a, t);
      var i :| 0 <= i < |s| && s[i] == a;
    }
    if exists i :: 0 <= i < |s| && IsAnnotation(s[i], t) {
      var i :| 0 <= i < |s| && IsAnnotation(s[i], t);
      assert s[i] in s;
    }
  }

  // ----- The dispatch loop, as a specification -----

  /** One processor invocation: which method, which registration, and the method as the processor received it. */
  datatype Invocation = Invocation(methodIndex: nat, processor: nat, input: MethodNode)

  /** The class as rewritten so far and the invocations so far. */
  datatype State = State(cls: ClassNode, calls: seq<Invocation>)

  /** Registration k looks at method i. */
  function Step(procs: seq<Registration>, st: State, i: nat, k: nat): (r: Result<State, HandleError>)
    requires i < |st.cls.methods| && k < |procs|
    ensures r.Success? ==> |r.value.cls.methods| == |st.cls.methods|
  {
    var m := st.cls.methods[i];
    var reg := procs[k];
    if !HasAnnotation(m, reg.annotation) then Success(st)
    else match RemoveConsumed(reg.process(st.cls, m), reg.annotation)
      case Failure(e) => Failure(e)
      case Success(m') => Success(State(st.cls.(methods := st.cls.methods[i := m']), st.calls + [Invocation(i, k, m)]))
  }

  /** The two class nodes agree on everything but their methods. */
  predicate SameHeader(a: ClassNode, b: ClassNode) {
    a.access == b.access && a.name == b.name && a.superName == b.superName
  }

  /** A registration whose annotation method i carries runs its processor and then the removal, whose outcome it passes on. */
  lemma StepRemoves(procs: seq<Registration>, st: State, i: nat, k: nat)
    requires i < |st.cls.methods| && k < |procs| && HasAnnotation(st.cls.methods[i], procs[k].annotation)
    ensures var removed := RemoveConsumed(procs[k].process(st.cls, st.cls.methods[i]), procs[k].annotation);
      && (removed.Failure? ==> Step(procs, st, i, k) == Failure(removed.error))
      && (removed.Success? ==> Step(procs, st, i, k) == Success(State(st.cls.(methods := st.cls.methods[i := removed.value]),
                                                                     st.calls + [Invocation(i, k, st.cls.methods[i])])))
  {
  }

  /** Registrations k.. look at method i, in list order. */
  function ProcessMethod(procs: seq<Registration>, st: State, i: nat, k: nat): (r: Result<State, HandleError>)
    requires i < |st.cls.methods| && k <= |procs|
    ensures r.Success? ==> |r.value.cls.methods| == |st.cls.methods|
    decreases |procs| - k
  {
    if k == |procs| then Success(st)
    else match Step(procs, st, i, k)
      case Failure(e) => Failure(e)
      case Success(st') => ProcessMethod(procs, st', i, k + 1)
  }

  /** Methods i.. are processed in order. */
  function ProcessMethods(procs: seq<Registration>, st: State, i: nat): (r: Result<State, HandleError>)
    requires i <= |st.cls.methods|
    ensures r.Success? ==> |r.value.cls.methods| == |st.cls.methods|
    decreases |st.cls.methods| - i
  {
    if i == |st.cls.methods| then Success(st)
    else match ProcessMethod(procs, st, i, 0)
      case Failure(e) => Failure(e)
      case Success(st') => ProcessMethods(procs, st', i + 1)
  }

  /** Registrations looking at method i leave every other method as it was. */
  lemma {:induction false} ProcessMethodOthers(procs: seq<Registration>, st: State, i: nat, k: nat, j: nat)
    requires i < |st.cls.methods| && k <= |procs| && j < |st.cls.methods| && j != i
    ensures ProcessMethod(procs, st, i, k).Success? ==> ProcessMethod(procs, st, i, k).value.cls.methods[j] == st.cls.methods[j]
    decreases |procs| - k
  {
    if k < |procs| {
      var r := Step(procs, st, i, k);
      if r.Success? {
        ProcessMethodOthers(procs, r.value, i, k + 1, j);
      }
    }
  }

  /** The whole rewrite of a class tree. */
  function Transform(h: Handler, cls: ClassNode): Result<State, HandleError> {
    ProcessMethods(h.processors, State(cls, []), 0)
  }

  /** handle: parse, rewrite, write (through the checker when `verify` is set), same name. */
  function HandleSpec(h: Handler, resource: Resource, parse: seq<byte> -> Option<ClassNode>,
                      check: ClassNode -> bool, write: ClassNode -> seq<byte>, modified: int): Result<Resource, HandleError>
  {
    match parse(resource.bytes)
    case None => Failure(MalformedClass)
    case Some(cls) =>
      match Transform(h, cls)
      case Failure(e) => Failure(e)
      case Success(st) =>
        if h.verify && !check(st.cls) then Failure(VerificationFailed)
        else Success(MakeResource(resource.name, modified, write(st.cls)))
  }

  /**
   * The inner loop of handle: every registration in turn looks at method i of the array,
   * and a method it processes is written back before the next registration looks at it.
   */
  method RunRegistrations(procs: seq<Registration>, cls: ClassNode, methods: array<MethodNode>, i: nat, ghost st: State)
    returns (failure: Option<HandleError>, ghost st': State)
    requires i < methods.Length && methods[..] == st.cls.methods && SameHeader(st.cls, cls)
    modifies methods
    ensures failure.Some? ==> ProcessMethod(procs, st, i, 0) == Failure(failure.value)
    ensures failure.Some? ==> failure.value != MalformedClass
    ensures failure.None? ==> ProcessMethod(procs, st, i, 0) == Success(st')
                              && methods[..] == st'.cls.methods && SameHeader(st'.cls, cls)
  {
    st' := st;
    var k := 0;
    while k < |procs|
      invariant 0 <= k <= |procs| && i < methods.Length
      invariant methods[..] == st'.cls.methods && SameHeader(st'.cls, cls)
      invariant ProcessMethod(procs, st', i, k) == ProcessMethod(procs, st, i, 0)
    {
      var current := methods[i];
      var reg := procs[k];
      if HasAnnotation(current, reg.annotation) {
        var processed := reg.process(cls.(methods := methods[..]), current);
        var removed := RemoveConsumed(processed, reg.annotation);
        StepRemoves(procs, st', i, k);
        if removed.Failure? {
          return Some(removed.error), st';
        }
        methods[i] := removed.value;
        st' := Step(procs, st', i, k).value;
      }
      k := k + 1;
    }
    failure := None;
  }

  /**
   * handle, in place: the class's methods in an array, the nested loops over methods and registrations,
   * each processed method written back before the next registration looks at it.
   */
  method Handle(h: Handler, resource: Resource, parse: seq<byte> -> Option<ClassNode>,
                check: ClassNode -> bool, write: ClassNode -> seq<byte>, modified: int)
    returns (r: Result<Resource, HandleError>)
    ensures r == HandleSpec(h, resource, parse, check, write, modified)
    ensures r.Success? ==> r.value.name == resource.name && r.value.modified == modified
    ensures parse(resource.bytes).None? <==> r == Failure(MalformedClass)
  {
    var parsed := parse(resource.bytes);
    if parsed.None? {
      return Failure(MalformedClass);
    }
    var cls := parsed.value;
    var procs := h.processors;
    var methods := new MethodNode[|cls.methods|](j requires 0 <= j < |cls.methods| => cls.methods[j]);
    ghost var st := State(cls, []);
    ghost var total := Transform(h, cls);
    var i := 0;
    while i < methods.Length
      invariant 0 <= i <= methods.Length == |st.cls.methods|
      invariant methods[..] == st.cls.methods && SameHeader(st.cls, cls)
      invariant ProcessMethods(procs, st, i) == total
    {
      var failure;
      failure, st := RunRegistrations(procs, cls, methods, i, st);
      if failure.Some? {
        return Failure(failure.value);
      }
      i := i + 1;
    }
    var result := cls.(methods := methods[..]);
    if h.verify && !check(result) {
      return Failure(VerificationFailed);
    }
    r := Success(MakeResource(resource.name, modified, write(result)));
  }

  // ----- Properties of the dispatch -----

  lemma {:induction false} EmptyProcessMethods(st: State, i: nat)
    requires i <= |st.cls.methods|
    ensures ProcessMethods([], st, i) == Success(st)
    decreases |st.cls.methods| - i
  {
    if i < |st.cls.methods| {
      EmptyProcessMethods(st, i + 1);
    }
  }

  /** With no registrations no processor is invoked and the class is written back as it was read. */
  lemma EmptyHandlerChangesNothing(verify: bool, cls: ClassNode)
    ensures Transform(CreateEmpty(verify), cls) == Success(State(cls, []))
  {
    EmptyProcessMethods(State(cls, []), 0);
  }

  /** Invocation c comes before position (i, k) of the loop: an earlier method, or an earlier registration on method i. */
  predicate Before(c: Invocation, i: nat, k: nat) {
    c.methodIndex < i || (c.methodIndex == i && c.processor < k)
  }

  /** The invocations so far happened in loop order, each before (i, k), each on a method that carried the registration's annotation. */
  ghost predicate TraceOk(procs: seq<Registration>, calls: seq<Invocation>, i: nat, k: nat) {
    && (forall a, b :: 0 <= a < b < |calls| ==> Before(calls[a], calls[b].methodIndex, calls[b].processor))
    && (forall c :: c in calls ==> Before(c, i, k) && c.processor < |procs| && HasAnnotation(c.input, procs[c.processor].annotation))
  }

  lemma {:induction false} ProcessMethodTrace(procs: seq<Registration>, st: State, i: nat, k: nat)
    requires i < |st.cls.methods| && k <= |procs| && TraceOk(procs, st.calls, i, k)
    ensures ProcessMethod(procs, st, i, k).Success? ==> TraceOk(procs, ProcessMethod(procs, st, i, k).value.calls, i + 1, 0)
    decreases |procs| - k
  {
    if k < |procs| {
      var r := Step(procs, st, i, k);
      if r.Success? {
        var st' := r.value;
        assert TraceOk(procs, st'.calls, i, k + 1) by {
          if st'.calls != st.calls {
            var m := st.cls.methods[i];
            assert st'.calls == st.calls + [Invocation(i, k, m)];
            forall c | c in st'.calls
              ensures Before(c, i, k + 1) && c.processor < |procs| && HasAnnotation(c.input, procs[c.processor].annotation)
            {
              if c !in st.calls { assert c == Invocation(i, k, m); }
            }
            forall a, b | 0 <= a < b < |st'.calls|
              ensures Before(st'.calls[a], st'.calls[b].methodIndex, st'.calls[b].processor)
            {
              if b == |st.calls| { assert st'.calls[a] == st.calls[a] && st.calls[a] in st.calls; }
              else { assert st'.calls[a] == st.calls[a] && st'.calls[b] == st.calls[b]; }
            }
          }
        }
        ProcessMethodTrace(procs, st', i, k + 1);
      }
    } else {
      forall c | c in st.calls ensures Before(c, i + 1, 0) { }
    }
  }

  lemma {:induction false} ProcessMethodsTrace(procs: seq<Registration>, st: State, i: nat)
    requires i <= |st.cls.methods| && TraceOk(procs, st.calls, i, 0)
    ensures ProcessMethods(procs, st, i).Success? ==> TraceOk(procs, ProcessMethods(procs, st, i).value.calls, |st.cls.methods|, 0)
    decreases |st.cls.methods| - i
  {
    if i < |st.cls.methods| {
      ProcessMethodTrace(procs, st, i, 0);
      var r := ProcessMethod(procs, st, i, 0);
      if r.Success? {
        ProcessMethodsTrace(procs, r.value, i + 1);
        var rest := ProcessMethods(procs, r.value, i + 1);
        assert ProcessMethods(procs, st, i) == rest;
        if rest.Success? {
          assert TraceOk(procs, rest.value.calls, |st.cls.methods|, 0);
        }
      }
    }
  }

  /**
   * Dispatch order: the invocations of a successful rewrite are in method order, and within a method in
   * registration order; each was made on a method of the class that carried the registration's
   * annotation at that moment.
   */
  lemma DispatchOrder(h: Handler, cls: ClassNode)
    ensures Transform(h, cls).Success? ==>
              var calls := Transform(h, cls).value.calls;
              && (forall a, b :: 0 <= a < b < |calls| ==>
                    calls[a].methodIndex < calls[b].methodIndex || (calls[a].methodIndex == calls[b].methodIndex && calls[a].processor < calls[b].processor))
              && (forall c :: c in calls ==>
                    c.methodIndex < |cls.methods| && c.processor < |h.processors| && HasAnnotation(c.input, h.processors[c.processor].annotation))
  {
    ProcessMethodsTrace(h.processors, State(cls, []), 0);
  }

  /** Processing only appends to the trace: the invocations so far stay as they are, at the front. */
  lemma {:induction false} ProcessMethodExtends(procs: seq<Registration>, st: State, i: nat, k: nat)
    requires i < |st.cls.methods| && k <= |procs|
    ensures ProcessMethod(procs, st, i, k).Success? ==> st.calls <= ProcessMethod(procs, st, i, k).value.calls
    decreases |procs| - k
  {
    if k < |procs| {
      var r := Step(procs, st, i, k);
      if r.Success? {
        assert st.calls <= r.value.calls;
        ProcessMethodExtends(procs, r.value, i, k + 1);
      }
    }
  }

  lemma {:induction false} ProcessMethodsExtends(procs: seq<Registration>, st: State, i: nat)
    requires i <= |st.cls.methods|
    ensures ProcessMethods(procs, st, i).Success? ==> st.calls <= ProcessMethods(procs, st, i).value.calls
    decreases |st.cls.methods| - i
  {
    if i < |st.cls.methods| {
      ProcessMethodExtends(procs, st, i, 0);
      var r := ProcessMethod(procs, st, i, 0);
      if r.Success? {
        assert ProcessMethods(procs, st, i) == ProcessMethods(procs, r.value, i + 1);
        ProcessMethodsExtends(procs, r.value, i + 1);
      }
    }
  }

  /** An invocation recorded in a trace is still recorded in every extension of it. */
  lemma PrefixKeeps(a: seq<Invocation>, b: seq<Invocation>, c: Invocation)
    requires a <= b && c in a
    ensures c in b
  {
    var n :| 0 <= n < |a| && a[n] == c;
    assert b[n] == c;
  }

  /** On a method carrying its annotation, the first registration is invoked, and the rest of that method's registrations keep the record. */
  lemma ProcessMethodDispatchFirst(procs: seq<Registration>, st: State, j: nat)
    requires j < |st.cls.methods| && |procs| > 0 && HasAnnotation(st.cls.methods[j], procs[0].annotation)
    ensures ProcessMethod(procs, st, j, 0).Success? ==> Invocation(j, 0, st.cls.methods[j]) in ProcessMethod(procs, st, j, 0).value.calls
  {
    StepRemoves(procs, st, j, 0);
    var s1 := Step(procs, st, j, 0);
    if s1.Success? {
      assert ProcessMethod(procs, st, j, 0) == ProcessMethod(procs, s1.value, j, 1);
      assert s1.value.calls[|st.calls|] == Invocation(j, 0, st.cls.methods[j]);
      ProcessMethodExtends(procs, s1.value, j, 1);
      if ProcessMethod(procs, s1.value, j, 1).Success? {
        PrefixKeeps(s1.value.calls, ProcessMethod(procs, s1.value, j, 1).value.calls, Invocation(j, 0, st.cls.methods[j]));
      }
    }
  }

  /** At method j: the invocation made there survives the later methods. */
  lemma ProcessMethodsDispatchAt(procs: seq<Registration>, st: State, j: nat)
    requires j < |st.cls.methods| && |procs| > 0 && HasAnnotation(st.cls.methods[j], procs[0].annotation)
    ensures ProcessMethods(procs, st, j).Success? ==> Invocation(j, 0, st.cls.methods[j]) in ProcessMethods(procs, st, j).value.calls
  {
    ProcessMethodDispatchFirst(procs, st, j);
    var r := ProcessMethod(procs, st, j, 0);
    if r.Success? {
      var rest := ProcessMethods(procs, r.value, j + 1);
      assert ProcessMethods(procs, st, j) == rest;
      ProcessMethodsExtends(procs, r.value, j + 1);
      if rest.Success? {
        PrefixKeeps(r.value.calls, rest.value.calls, Invocation(j, 0, st.cls.methods[j]));
      }
    }
  }

  /** Methods i..j-1 are processed in order: the state in which method j is reached. */
  function ProcessMethodsUpTo(procs: seq<Registration>, st: State, i: nat, j: nat): (r: Result<State, HandleError>)
    requires i <= j <= |st.cls.methods|
    ensures r.Success? ==> |r.value.cls.methods| == |st.cls.methods|
    decreases j - i
  {
    if i == j then Success(st)
    else match ProcessMethod(procs, st, i, 0)
      case Failure(e) => Failure(e)
      case Success(st') => ProcessMethodsUpTo(procs, st', i + 1, j)
  }

  /** Processing methods i.. is processing i..j-1 and then, from the state reached, j.. */
  lemma {:induction false} ProcessMethodsSplit(procs: seq<Registration>, st: State, i: nat, j: nat)
    requires i <= j <= |st.cls.methods|
    ensures ProcessMethodsUpTo(procs, st, i, j).Failure? ==> ProcessMethods(procs, st, i) == Failure(ProcessMethodsUpTo(procs, st, i, j).error)
    ensures ProcessMethodsUpTo(procs, st, i, j).Success? ==> ProcessMethods(procs, st, i) == ProcessMethods(procs, ProcessMethodsUpTo(procs, st, i, j).value, j)
    decreases j - i
  {
    if i < j {
      var r := ProcessMethod(procs, st, i, 0);
      if r.Success? {
        assert ProcessMethodsUpTo(procs, st, i, j) == ProcessMethodsUpTo(procs, r.value, i + 1, j);
        assert ProcessMethods(procs, st, i) == ProcessMethods(procs, r.value, i + 1);
        ProcessMethodsSplit(procs, r.value, i + 1, j);
      } else {
        assert ProcessMethodsUpTo(procs, st, i, j) == Failure(r.error) == ProcessMethods(procs, st, i);
      }
    }
  }

  /** Methods before k leave method k as it is. */
  lemma {:induction false} ProcessMethodsUpToKeeps(procs: seq<Registration>, st: State, i: nat, j: nat, k: nat)
    requires i <= j <= k < |st.cls.methods|
    ensures ProcessMethodsUpTo(procs, st, i, j).Success? ==> ProcessMethodsUpTo(procs, st, i, j).value.cls.methods[k] == st.cls.methods[k]
    decreases j - i
  {
    if i < j {
      ProcessMethodOthers(procs, st, i, 0, k);
      var r := ProcessMethod(procs, st, i, 0);
      if r.Success? {
        ProcessMethodsUpToKeeps(procs, r.value, i + 1, j, k);
      }
    }
  }

  /**
   * The first registration (the one added last) is invoked on method j, as the class was read, exactly when
   * that method carries its annotation: `handle` tests hasAnnotation and calls the processor when it holds.
   */
  lemma FirstRegistrationDispatched(h: Handler, cls: ClassNode, j: nat)
    requires |h.processors| > 0 && j < |cls.methods|
    ensures Transform(h, cls).Success? ==>
              (Invocation(j, 0, cls.methods[j]) in Transform(h, cls).value.calls <==> HasAnnotation(cls.methods[j], h.processors[0].annotation))
  {
    if HasAnnotation(cls.methods[j], h.processors[0].annotation) {
      var st := State(cls, []);
      ProcessMethodsSplit(h.processors, st, 0, j);
      ProcessMethodsUpToKeeps(h.processors, st, 0, j, j);
      var reached := ProcessMethodsUpTo(h.processors, st, 0, j);
      if reached.Success? {
        ProcessMethodsDispatchAt(h.processors, reached.value, j);
      }
    } else {
      DispatchOrder(h, cls);
    }
  }

  /** A registration just added is invoked on every method of the class that carries its annotation. */
  lemma AddedProcessorDispatched(h: Handler, annotation: Type, process: Processor, cls: ClassNode, j: nat)
    requires j < |cls.methods| && HasAnnotation(cls.methods[j], annotation)
    ensures Transform(Add(h, annotation, process), cls).Success? ==>
              Invocation(j, 0, cls.methods[j]) in Transform(Add(h, annotation, process), cls).value.calls
  {
    FirstRegistrationDispatched(Add(h, annotation, process), cls, j);
  }

  /** Method j carries none of the registered annotations, and no invocation so far was on it. */
  ghost predicate Untouched(procs: seq<Registration>, st: State, j: nat, m: MethodNode) {
    && j < |st.cls.methods| && st.cls.methods[j] == m
    && (forall k :: 0 <= k < |procs| ==> !HasAnnotation(m, procs[k].annotation))
    && (forall c :: c in st.calls ==> c.methodIndex != j)
  }

  lemma {:induction false} ProcessMethodUntouched(procs: seq<Registration>, st: State, i: nat, k: nat, j: nat, m: MethodNode)
    requires i < |st.cls.methods| && k <= |procs| && Untouched(procs, st, j, m)
    ensures ProcessMethod(procs, st, i, k).Success? ==> Untouched(procs, ProcessMethod(procs, st, i, k).value, j, m)
    decreases |procs| - k
  {
    if k < |procs| {
      var r := Step(procs, st, i, k);
      if r.Success? {
        assert Untouched(procs, r.value, j, m) by {
          if i == j {
            assert !HasAnnotation(st.cls.methods[i], procs[k].annotation);
          } else {
            forall c | c in r.value.calls ensures c.methodIndex != j {
              if c !in st.calls { assert c.methodIndex == i; }
            }
          }
        }
        ProcessMethodUntouched(procs, r.value, i, k + 1, j, m);
      }
    }
  }

  lemma {:induction false} ProcessMethodsUntouched(procs: seq<Registration>, st: State, i: nat, j: nat, m: MethodNode)
    requires i <= |st.cls.methods| && Untouched(procs, st, j, m)
    ensures ProcessMethods(procs, st, i).Success? ==> Untouched(procs, ProcessMethods(procs, st, i).value, j, m)
    decreases |st.cls.methods| - i
  {
    if i < |st.cls.methods| {
      ProcessMethodUntouched(procs, st, i, 0, j, m);
      var r := ProcessMethod(procs, st, i, 0);
      if r.Success? {
        ProcessMethodsUntouched(procs, r.value, i + 1, j, m);
        var rest := ProcessMethods(procs, r.value, i + 1);
        assert ProcessMethods(procs, st, i) == rest;
        if rest.Success? {
          assert Untouched(procs, rest.value, j, m);
        }
      }
    }
  }

  /** A method carrying none of the registered annotations is never passed to a processor and comes out unchanged. */
  lemma OnlyAnnotatedMethodsTouched(h: Handler, cls: ClassNode, j: nat)
    requires j < |cls.methods|
    requires forall k :: 0 <= k < |h.processors| ==> !HasAnnotation(cls.methods[j], h.processors[k].annotation)
    ensures Transform(h, cls).Success? ==>
              var st := Transform(h, cls).value;
              && st.cls.methods[j] == cls.methods[j]
              && forall c :: c in st.calls ==> c.methodIndex != j
  {
    ProcessMethodsUntouched(h.processors, State(cls, []), 0, j, cls.methods[j]);
  }

  /** The registration added last is consulted first: on a method carrying its annotation it is the next invocation. */
  lemma {:induction false} AddedProcessorFirst(h: Handler, annotation: Type, process: Processor, st: State, i: nat)
    requires i < |st.cls.methods| && HasAnnotation(st.cls.methods[i], annotation)
    ensures var r := Step(Add(h, annotation, process).processors, st, i, 0);
      r.Success? ==> r.value.calls == st.calls + [Invocation(i, 0, st.cls.methods[i])]
  {
  }

  // ----- Running twice -----

  /** No processor adds a node of type t: neither annotation list gains nodes of type t. */
  ghost predicate AddsNone(procs: seq<Registration>, t: Type) {
    forall k, c, m :: 0 <= k < |procs| ==>
      Count(Nodes(procs[k].process(c, m).visibleAnnotations), t) <= Count(Nodes(m.visibleAnnotations), t) &&
      Count(Nodes(procs[k].process(c, m).invisibleAnnotations), t) <= Count(Nodes(m.invisibleAnnotations), t)
  }

  /** Some registration is for an annotation with t's descriptor. */
  ghost predicate Registered(procs: seq<Registration>, t: Type, k: nat)
    requires k <= |procs|
  {
    exists k' :: 0 <= k' < k && Descriptor(procs[k'].annotation) == Descriptor(t)
  }

  /** Removal keeps the visible list, and takes out of the invisible list no node of another type than the one removed. */
  lemma RemoveConsumedCounts(m: MethodNode, u: Type, t: Type)
    requires RemoveConsumed(m, u).Success?
    ensures var m' := RemoveConsumed(m, u).value;
      && m'.visibleAnnotations == m.visibleAnnotations
      && (Descriptor(u) != Descriptor(t) ==>
            Count(Nodes(m'.invisibleAnnotations), t) == Count(Nodes(m.invisibleAnnotations), t))
      && (Descriptor(u) == Descriptor(t) && NoneVisible(m, t) ==>
            Count(Nodes(m'.invisibleAnnotations), t) == Count(Nodes(m.invisibleAnnotations), t) - 1)
  {
    if NoneVisible(m, u) {
      var inv := m.invisibleAnnotations.value;
      var j := FindAnnotation(inv, u).value;
      assert IsAnnotation(inv[j], t) <==> Descriptor(u) == Descriptor(t);
      CountRemoveAt(inv, j, t);
    } else if Descriptor(u) == Descriptor(t) {
      var v :| 0 <= v < |Nodes(m.visibleAnnotations)| && IsAnnotation(Nodes(m.visibleAnnotations)[v], u);
      assert IsAnnotation(Nodes(m.visibleAnnotations)[v], t);
    }
  }

  /** One registration's effect on method j: no visible t appears, the invisible t's do not grow, and a registration for t consumes a single one. */
  lemma StepCounts(procs: seq<Registration>, st: State, j: nat, k: nat, t: Type)
    requires j < |st.cls.methods| && k < |procs| && AddsNone(procs, t)
    requires NoneVisible(st.cls.methods[j], t) && Step(procs, st, j, k).Success?
    ensures var m := st.cls.methods[j];
      var m' := Step(procs, st, j, k).value.cls.methods[j];
      && NoneVisible(m', t)
      && Count(Nodes(m'.invisibleAnnotations), t) <= Count(Nodes(m.invisibleAnnotations), t)
      && (Descriptor(procs[k].annotation) == Descriptor(t) && Count(Nodes(m.invisibleAnnotations), t) <= 1 ==>
            Count(Nodes(m'.invisibleAnnotations), t) == 0)
  {
    var m := st.cls.methods[j];
    var u := procs[k].annotation;
    HasAnnotationIffCount(m, u);
    HasAnnotationIffCount(m, t);
    if HasAnnotation(m, u) {
      var p := procs[k].process(st.cls, m);
      assert Count(Nodes(p.visibleAnnotations), t) <= Count(Nodes(m.visibleAnnotations), t);
      assert Count(Nodes(p.invisibleAnnotations), t) <= Count(Nodes(m.invisibleAnnotations), t);
      HasAnnotationIffCount(p, t);
      RemoveConsumedCounts(p, u, t);
    }
  }

  lemma RegisteredStep(procs: seq<Registration>, t: Type, k: nat)
    requires k < |procs|
    ensures Registered(procs, t, k + 1) <==> Registered(procs, t, k) || Descriptor(procs[k].annotation) == Descriptor(t)
  {
    if Registered(procs, t, k + 1) && Descriptor(procs[k].annotation) != Descriptor(t) {
      var k' :| 0 <= k' < k + 1 && Descriptor(procs[k'].annotation) == Descriptor(t);
      assert k' < k;
    }
  }

  /** While method j's registrations run, it holds at most one invisible t, and none once a registration for t has run. */
  lemma {:induction false} FirstRunConsumes(procs: seq<Registration>, st: State, j: nat, k: nat, t: Type)
    requires j < |st.cls.methods| && k <= |procs| && AddsNone(procs, t)
    requires NoneVisible(st.cls.methods[j], t)
    requires Count(Nodes(st.cls.methods[j].invisibleAnnotations), t) <= if Registered(procs, t, k) then 0 else 1
    ensures ProcessMethod(procs, st, j, k).Success? ==>
              var m := ProcessMethod(procs, st, j, k).value.cls.methods[j];
              NoneVisible(m, t) && Count(Nodes(m.invisibleAnnotations), t) <= if Registered(procs, t, |procs|) then 0 else 1
    decreases |procs| - k
  {
    if k < |procs| {
      var r := Step(procs, st, j, k);
      if r.Success? {
        RegisteredStep(procs, t, k);
        StepCounts(procs, st, j, k, t);
        FirstRunConsumes(procs, r.value, j, k + 1, t);
      }
    }
  }

  /** Method j does not carry t, and no registration for t has been invoked on it. */
  ghost predicate Clear(procs: seq<Registration>, st: State, j: nat, t: Type) {
    && j < |st.cls.methods| && !HasAnnotation(st.cls.methods[j], t)
    && (forall c :: c in st.calls && c.methodIndex == j && c.processor < |procs| ==>
          Descriptor(procs[c.processor].annotation) != Descriptor(t))
  }

  /** No processor gives a node of type t to a method that lacks t. */
  ghost predicate KeepsLacking(procs: seq<Registration>, t: Type) {
    forall k, c, m :: 0 <= k < |procs| && !HasAnnotation(m, t) ==> !HasAnnotation(procs[k].process(c, m), t)
  }

  /** Processors that add no node of type t never give t to a method that lacks it. */
  lemma AddsNoneKeepsLacking(procs: seq<Registration>, t: Type)
    requires AddsNone(procs, t)
    ensures KeepsLacking(procs, t)
  {
    forall k, c, m | 0 <= k < |procs| && !HasAnnotation(m, t)
      ensures !HasAnnotation(procs[k].process(c, m), t)
    {
      HasAnnotationIffCount(m, t);
      HasAnnotationIffCount(procs[k].process(c, m), t);
    }
  }

  /** A registration run on a method without t: its annotation is not t's, and the method still lacks t afterwards. */
  lemma StepClear(procs: seq<Registration>, st: State, j: nat, k: nat, t: Type)
    requires j < |st.cls.methods| && k < |procs| && KeepsLacking(procs, t)
    requires !HasAnnotation(st.cls.methods[j], t) && Step(procs, st, j, k).Success?
    ensures !HasAnnotation(Step(procs, st, j, k).value.cls.methods[j], t)
    ensures HasAnnotation(st.cls.methods[j], procs[k].annotation) ==> Descriptor(procs[k].annotation) != Descriptor(t)
  {
    var m := st.cls.methods[j];
    var u := procs[k].annotation;
    HasAnnotationIffCount(m, u);
    HasAnnotationIffCount(m, t);
    if HasAnnotation(m, u) {
      var p := procs[k].process(st.cls, m);
      assert !HasAnnotation(p, t);
      HasAnnotationIffCount(p, t);
      RemoveConsumedCounts(p, u, t);
      HasAnnotationIffCount(RemoveConsumed(p, u).value, t);
    }
  }

  lemma StepKeepsClear(procs: seq<Registration>, st: State, i: nat, k: nat, j: nat, t: Type)
    requires i < |st.cls.methods| && k < |procs| && KeepsLacking(procs, t) && Clear(procs, st, j, t)
    requires Step(procs, st, i, k).Success?
    ensures Clear(procs, Step(procs, st, i, k).value, j, t)
  {
    if i == j {
      StepClear(procs, st, j, k, t);
    }
    if HasAnnotation(st.cls.methods[i], procs[k].annotation) {
      assert Step(procs, st, i, k).value.calls == st.calls + [Invocation(i, k, st.cls.methods[i])];
    }
  }

  /** A successful registration step hands its state on to the next registration. */
  lemma ProcessMethodUnfold(procs: seq<Registration>, st: State, i: nat, k: nat)
    requires i < |st.cls.methods| && k < |procs| && Step(procs, st, i, k).Success?
    ensures ProcessMethod(procs, st, i, k) == ProcessMethod(procs, Step(procs, st, i, k).value, i, k + 1)
  {
  }

  lemma {:induction false} ProcessMethodClear(procs: seq<Registration>, st: State, i: nat, k: nat, j: nat, t: Type)
    requires i < |st.cls.methods| && k <= |procs| && KeepsLacking(procs, t) && Clear(procs, st, j, t)
    ensures ProcessMethod(procs, st, i, k).Success? ==> Clear(procs, ProcessMethod(procs, st, i, k).value, j, t)
    decreases |procs| - k
  {
    if k < |procs| {
      var r := Step(procs, st, i, k);
      if r.Success? {
        ProcessMethodUnfold(procs, st, i, k);
        StepKeepsClear(procs, st, i, k, j, t);
        ProcessMethodClear(procs, r.value, i, k + 1, j, t);
      }
    }
  }

  lemma {:induction false} ProcessMethodsClear(procs: seq<Registration>, st: State, i: nat, j: nat, t: Type)
    requires i <= |st.cls.methods| && KeepsLacking(procs, t) && Clear(procs, st, j, t)
    ensures ProcessMethods(procs, st, i).Success? ==> Clear(procs, ProcessMethods(procs, st, i).value, j, t)
    decreases |st.cls.methods| - i
  {
    if i < |st.cls.methods| {
      ProcessMethodClear(procs, st, i, 0, j, t);
      var r := ProcessMethod(procs, st, i, 0);
      if r.Success? {
        ProcessMethodsClear(procs, r.value, i + 1, j, t);
        var rest := ProcessMethods(procs, r.value, i + 1);
        assert ProcessMethods(procs, st, i) == rest;
        if rest.Success? {
          assert Clear(procs, rest.value, j, t);
        }
      }
    }
  }

  /** A method without t, rewritten by processors that never give t to a method lacking it, is never passed to a processor for t and still lacks t. */
  lemma NotCarriedNeverInvoked(h: Handler, cls: ClassNode, j: nat, t: Type)
    requires j < |cls.methods| && KeepsLacking(h.processors, t) && !HasAnnotation(cls.methods[j], t)
    ensures Transform(h, cls).Success? ==>
              var st := Transform(h, cls).value;
              && !HasAnnotation(st.cls.methods[j], t)
              && forall c :: c in st.calls && c.methodIndex == j && c.processor < |h.processors| ==>
                   Descriptor(h.processors[c.processor].annotation) != Descriptor(t)
  {
    ProcessMethodsClear(h.processors, State(cls, []), 0, j, t);
  }

  /** After method j's registrations, its single invisible t is gone. */
  lemma ConsumedAt(procs: seq<Registration>, st: State, j: nat, t: Type)
    requires j < |st.cls.methods| && AddsNone(procs, t) && Registered(procs, t, |procs|)
    requires NoneVisible(st.cls.methods[j], t) && Count(Nodes(st.cls.methods[j].invisibleAnnotations), t) == 1
    ensures ProcessMethod(procs, st, j, 0).Success? ==> !HasAnnotation(ProcessMethod(procs, st, j, 0).value.cls.methods[j], t)
  {
    assert !Registered(procs, t, 0);
    FirstRunConsumes(procs, st, j, 0, t);
    if ProcessMethod(procs, st, j, 0).Success? {
      HasAnnotationIffCount(ProcessMethod(procs, st, j, 0).value.cls.methods[j], t);
    }
  }

  /** Methods before and after j leave method j as it is; at j the registrations for t consume its one invisible t. */
  lemma {:induction false} ProcessMethodsConsume(procs: seq<Registration>, st: State, i: nat, j: nat, t: Type, m0: MethodNode)
    requires i <= |st.cls.methods| && j < |st.cls.methods| && AddsNone(procs, t) && Registered(procs, t, |procs|)
    requires NoneVisible(m0, t) && Count(Nodes(m0.invisibleAnnotations), t) == 1
    requires i <= j ==> st.cls.methods[j] == m0
    requires i > j ==> !HasAnnotation(st.cls.methods[j], t)
    ensures ProcessMethods(procs, st, i).Success? ==> !HasAnnotation(ProcessMethods(procs, st, i).value.cls.methods[j], t)
    decreases |st.cls.methods| - i
  {
    if i < |st.cls.methods| {
      var r := ProcessMethod(procs, st, i, 0);
      if r.Success? {
        assert ProcessMethods(procs, st, i) == ProcessMethods(procs, r.value, i + 1);
        if i == j {
          ConsumedAt(procs, st, j, t);
        } else {
          ProcessMethodOthers(procs, st, i, 0, j);
        }
        ProcessMethodsConsume(procs, r.value, i + 1, j, t, m0);
        var rest := ProcessMethods(procs, r.value, i + 1);
        if rest.Success? {
          assert !HasAnnotation(rest.value.cls.methods[j], t);
        }
      }
    }
  }

  /**
   * Running twice: if method j carried exactly one invisible (and no visible) annotation of a registered type t,
   * and no processor adds a node of type t, then after a successful handle the annotation is gone, and a
   * second run with the same registrations never passes the method to a processor for t.
   */
  lemma SecondRunSkips(h: Handler, cls: ClassNode, j: nat, t: Type)
    requires j < |cls.methods| && AddsNone(h.processors, t)
    requires exists k :: 0 <= k < |h.processors| && Descriptor(h.processors[k].annotation) == Descriptor(t)
    requires NoneVisible(cls.methods[j], t) && Count(Nodes(cls.methods[j].invisibleAnnotations), t) == 1
    ensures Transform(h, cls).Success? ==>
              var st1 := Transform(h, cls).value;
              && !HasAnnotation(st1.cls.methods[j], t)
              && (Transform(h, st1.cls).Success? ==>
                    forall c :: c in Transform(h, st1.cls).value.calls && c.methodIndex == j && c.processor < |h.processors| ==>
                      Descriptor(h.processors[c.processor].annotation) != Descriptor(t))
  {
    assert Registered(h.processors, t, |h.processors|);
    ProcessMethodsConsume(h.processors, State(cls, []), 0, j, t, cls.methods[j]);
    if Transform(h, cls).Success? {
      var st1 := Transform(h, cls).value;
      AddsNoneKeepsLacking(h.processors, t);
      NotCarriedNeverInvoked(h, st1.cls, j, t);
    }
  }

  /** Reading back a written class keeps its methods in place, each carrying the annotations it carried. */
  ghost predicate ReadBackKeepsAnnotations(parse: seq<byte> -> Option<ClassNode>, write: ClassNode -> seq<byte>) {
    forall c: ClassNode :: parse(write(c)).Some? ==>
      && |parse(write(c)).value.methods| == |c.methods|
      && forall i, u :: 0 <= i < |c.methods| ==>
           (HasAnnotation(parse(write(c)).value.methods[i], u) <==> HasAnnotation(c.methods[i], u))
  }

  /**
   * Running handle twice over the file it wrote: when reading back a written class keeps each method's
   * annotations, the second handle, run on the class read from the first one's output, never passes
   * method j to a processor for t.
   */
  lemma SecondHandleSkips(h: Handler, cls: ClassNode, j: nat, t: Type,
                          parse: seq<byte> -> Option<ClassNode>, write: ClassNode -> seq<byte>)
    requires j < |cls.methods| && AddsNone(h.processors, t)
    requires exists k :: 0 <= k < |h.processors| && Descriptor(h.processors[k].annotation) == Descriptor(t)
    requires NoneVisible(cls.methods[j], t) && Count(Nodes(cls.methods[j].invisibleAnnotations), t) == 1
    requires ReadBackKeepsAnnotations(parse, write)
    ensures Transform(h, cls).Success? && parse(write(Transform(h, cls).value.cls)).Some? ==>
              var cls2 := parse(write(Transform(h, cls).value.cls)).value;
              && j < |cls2.methods| && !HasAnnotation(cls2.methods[j], t)
              && (Transform(h, cls2).Success? ==>
                    forall c :: c in Transform(h, cls2).value.calls && c.methodIndex == j && c.processor < |h.processors| ==>
                      Descriptor(h.processors[c.processor].annotation) != Descriptor(t))
  {
    SecondRunSkips(h, cls, j, t);
    if Transform(h, cls).Success? && parse(write(Transform(h, cls).value.cls)).Some? {
      var st1 := Transform(h, cls).value;
      var cls2 := parse(write(st1.cls)).value;
      assert !HasAnnotation(cls2.methods[j], t);
      AddsNoneKeepsLacking(h.processors, t);
      NotCarriedNeverInvoked(h, cls2, j, t);
    }
  }

  /** The written resource keeps the input's name and carries the writer's bytes for the rewritten tree. */
  lemma HandleKeepsName(h: Handler, resource: Resource, parse: seq<byte> -> Option<ClassNode>,
                        check: ClassNode -> bool, write: ClassNode -> seq<byte>, modified: int)
    requires parse(resource.bytes).Some? && Transform(h, parse(resource.bytes).value).Success?
    requires !h.verify || check(Transform(h, parse(resource.bytes).value).value.cls)
    ensures HandleSpec(h, resource, parse, check, write, modified)
            == Success(MakeResource(resource.name, modified, write(Transform(h, parse(resource.bytes).value).value.cls)))
  {
  }
}
