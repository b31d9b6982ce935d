# jcompilo core, modelled in Dafny

jcompilo is a Java build tool that compiles a project and post-processes its class files. This
project models five of its pieces and proves properties about them:

- **AsmResourceHandler**, the annotation-driven method transformer. It holds an ordered list of
  (annotation type, processor) registrations and a `verify` flag. `handle` reads a class, walks
  every method in order and lets each registration whose annotation the method carries at that
  moment process it. After each processor runs, `handle` removes the consumed annotation node from
  the method's invisible annotations. It then writes the class back under the same resource name.
  `handle` is modelled as a method over an array of method nodes, proved equal to a specification
  function that also records the trace of processor invocations.
- **Asm**, the helper algebra over ASM's tree API: annotation lookup by descriptor over visible
  then invisible annotations, access-flag tests, initial local variables, argument types, the
  `(...)V` argument signature, and the `constructor` and `construct` instruction builders. The
  builders are modelled as loops building an instruction sequence.
- **Resource**, the immutable (name, modified, bytes) value.
- **LocationsConvention**, the directory and artifact layout under the working directory, with the
  versioned artifact name as a field.
- **BootStrap**, the command-line build. It selects the build file, prints a header, updates the
  dependencies, finds and creates the build class, runs it, and reports success or failure with
  the elapsed seconds and an exit code. The file system listings, the compiler, the class loader,
  the dependency downloader, the container and the build itself are fields of an `Environment`
  value. The elapsed time is a parameter. `BootStrap` is a class whose `out` field accumulates what
  the program prints.

Module layout: `Wrappers` (Option, Result), `Strings` (the java.lang.String operations used),
`Files` (path joins and the file-name suffix test), `Resource`, `LocationsConvention`, `Asm`,
`AsmResourceHandler`, `BootStrap`.

`AsmResourceHandler.java` imports `com.googlecode.compilo.Resource` and `com.googlecode.compilo.tco.Asm`,
and calls a two-argument `resource(name, bytes)`. These are taken to behave as the `jcompilo`
versions of Resource and Asm. The timestamp the two-argument factory would attach is a parameter
(`modified`).

## Model

| member | source | states |
|---|---|---|
| Strings.ReplaceCharAt | src/com/googlecode/compilo/BootStrap.java:139 | `replace('.', '/')` turns every occurrence of the first character into the second and leaves every other character where it was |
| Strings.ReplaceCharRemoves | src/com/googlecode/compilo/BootStrap.java:139 | after replacing a character by a different one, the replaced character no longer occurs |
| Strings.RemoveAllAbsent | src/com/googlecode/compilo/BootStrap.java:139 | `replace(target, "")` leaves a string unchanged when the target's first character does not occur in it |
| Strings.RemoveAllTrailing | src/com/googlecode/compilo/BootStrap.java:139 | removing `target` from `p + target` gives back `p` when `p` cannot start an occurrence of the target |
| Strings.NatToString | src/com/googlecode/compilo/BootStrap.java:69 | the printed seconds are a non-empty string of decimal digits, starting with a digit and with no leading zero |
| Strings.NatToStringDigits | src/com/googlecode/compilo/BootStrap.java:69 | every character of the printed number is a decimal digit |
| Strings.IntToString | src/com/googlecode/compilo/BootStrap.java:69 | the printed number is non-empty and starts with a minus sign exactly when it is negative |
| Strings.ParseNatToString | src/com/googlecode/compilo/BootStrap.java:69 | reading the printed digits back gives the number printed |
| Strings.FilterMembers | src/com/googlecode/compilo/BootStrap.java:118 | an element is kept by `filter` exactly when it is in the input and satisfies the predicate |
| Strings.FilterConcat | src/com/googlecode/compilo/BootStrap.java:118 | `filter` distributes over concatenation, so the kept elements keep their relative order |
| Strings.FilterKeepsAll | src/com/googlecode/compilo/BootStrap.java:118 | when every element satisfies the predicate, `filter` returns the input itself, in the same order |
| Strings.FilterKeepsNone | src/com/googlecode/compilo/BootStrap.java:77-78 | when no element satisfies the predicate, `filter` returns the empty sequence |
| Files.Join | src/com/googlecode/compilo/convention/LocationsConvention.java:16-23 | a joined path starts with the parent and a separator, ends with a separator and the child, and has the combined length |
| Files.JoinInjective | src/com/googlecode/compilo/convention/LocationsConvention.java:16-23 | under one parent, two joined paths are equal exactly when the children are equal |
| Files.JoinUnder | src/com/googlecode/compilo/convention/LocationsConvention.java:16-23 | joining a non-empty child gives a path strictly under the parent |
| Resource.MakeResource | src/com/googlecode/jcompilo/Resource.java:46-65 | the `name`, `modified` and `bytes` accessors of `resource(n, d, b)` give back `n`, `d` and `b` unchanged |
| Resource.BytesFunction | src/com/googlecode/jcompilo/Resource.java:31-37 | `functions.bytes()` applied to any resource returns that resource's bytes |
| LocationsConvention.Locations.RootDir | src/com/googlecode/compilo/convention/LocationsConvention.java:15 | the root directory is the working directory |
| LocationsConvention.Locations.DirectoriesLayout | src/com/googlecode/compilo/convention/LocationsConvention.java:16-19 | the four directories are root/build/artifacts, root/src, root/test and root/lib; each lies under the root, and they are pairwise distinct |
| LocationsConvention.Locations.JarsLayout | src/com/googlecode/compilo/convention/LocationsConvention.java:20-23 | the jars are artifactsDir/<va>.jar, <va>-sources.jar, <va>-tests.jar and <va>-test-sources.jar, all under the artifacts directory |
| LocationsConvention.Locations.JarsDistinct | src/com/googlecode/compilo/convention/LocationsConvention.java:20-23 | for any versioned artifact name the four jar file names, and so the four jar paths, are pairwise distinct |
| Asm.Load | src/com/googlecode/jcompilo/asm/Asm.java:100-102 | the load opcode for any non-void type is one of ILOAD, LLOAD, FLOAD, DLOAD or ALOAD |
| Asm.Annotations | src/com/googlecode/jcompilo/asm/Asm.java:64-66 | `annotations(m)` is the visible annotations followed by the invisible ones, each list in its own order and a null list read as empty |
| Asm.FindAnnotation | src/com/googlecode/jcompilo/asm/Asm.java:267-275 | a node found by `find(annotation(T))` sits in the list and has T's descriptor |
| Asm.FindAnnotationFirst | src/com/googlecode/jcompilo/asm/Asm.java:267-275 | `find` fails exactly when no node has T's descriptor; otherwise the node found is the first one that does |
| Asm.HasAnnotationIffFound | src/com/googlecode/jcompilo/asm/Asm.java:56-66 | `hasAnnotation(m, T)` holds exactly when `find` over `annotations(m)` returns a node of T's descriptor |
| Asm.NumberOfArguments | src/com/googlecode/jcompilo/asm/Asm.java:130-138 | `numberOfArguments(insn)` is the length of `argumentTypes(insn)` |
| Asm.InitialLocalVariables | src/com/googlecode/jcompilo/asm/Asm.java:108-111 | the initial locals are the argument types, preceded by the class's own type exactly when the method is not static; the length is #args + (static ? 0 : 1) |
| Asm.ArgumentSignature | src/com/googlecode/jcompilo/asm/Asm.java:229-231 | the signature is "(", the descriptors of the pairs' second components in order, then ")V"; it is the method descriptor of those argument types with a void return |
| Asm.NoArgumentsSignature | src/com/googlecode/jcompilo/asm/Asm.java:54 | the descriptor of a method taking nothing and returning void is CONSTRUCTOR_NO_ARGUMENTS, "()V" |
| Asm.SlotHoldsArgument | src/com/googlecode/jcompilo/asm/Asm.java:216-221 | in the JVM's argument layout, the start slot of every argument holds that argument's type |
| Asm.ArgumentSlotInFrame | src/com/googlecode/jcompilo/asm/Asm.java:216-221 | in an instance method's local frame (`this`, then the arguments) argument i starts at slot 1 + the sizes of the arguments before it |
| Asm.AsWrittenSlotIffNarrow | src/com/googlecode/jcompilo/asm/Asm.java:219 | the slot i + 1 that `constructor` loads field i from is the right slot exactly when no long or double precedes field i, and otherwise it lies before the right slot |
| Asm.AsWrittenSlotMisreadsAfterLong | src/com/googlecode/jcompilo/asm/Asm.java:219 | for fields (long a, int b), `constructor` loads b from slot 2, which holds the second half of a; b is in slot 3 |
| Asm.FieldStoresAt | src/com/googlecode/jcompilo/asm/Asm.java:216-221 | the field stores are three instructions per field in field order: ALOAD 0, the field's load from its slot, PUTFIELD of the field |
| Asm.ConstructorShape | src/com/googlecode/jcompilo/asm/Asm.java:212-223 | a constructor body over n fields has 3n + 3 instructions: ALOAD 0, INVOKESPECIAL super.<init>()V, three per field, and RETURN last |
| Asm.ConstructorAsWritten | src/com/googlecode/jcompilo/asm/Asm.java:210-227 | public `<init>` with descriptor argumentSignature(fields) and no annotations; its instructions are the constructor body loading field i from slot i + 1, as the source writes it |
| Asm.Constructor | src/com/googlecode/jcompilo/asm/Asm.java:210-227 | the same constructor with field i loaded from the slot where the JVM places argument i; each load then reads a local holding exactly that field's type |
| Asm.FlattenAt | src/com/googlecode/jcompilo/asm/Asm.java:237-239 | in the concatenated argument lists, list i sits right after the lists before it |
| Asm.Construct | src/com/googlecode/jcompilo/asm/Asm.java:233-242 | NEW t, DUP, each argument's instructions in order, then INVOKESPECIAL t.<init> with descriptor argumentSignature(arguments); the length is 3 + the sum of the argument lengths |
| AsmResourceHandler.Create | src/com/googlecode/compilo/tco/AsmResourceHandler.java:29-36 | the handler holds the registrations in the order given and the given verify flag |
| AsmResourceHandler.CreateDebugging | src/com/googlecode/compilo/tco/AsmResourceHandler.java:38-40 | verify follows the debugging setting |
| AsmResourceHandler.CreateEmpty | src/com/googlecode/compilo/tco/AsmResourceHandler.java:42-44 | no registrations, the given verify flag |
| AsmResourceHandler.CreateDefault | src/com/googlecode/compilo/tco/AsmResourceHandler.java:46-48 | no registrations, verify follows the debugging setting |
| AsmResourceHandler.Add | src/com/googlecode/compilo/tco/AsmResourceHandler.java:50-52 | the new registration is consed in front of the old list, which follows unchanged; verify is unchanged |
| AsmResourceHandler.MatchesIffClassFile | src/com/googlecode/compilo/tco/AsmResourceHandler.java:55-57 | `matches(name)` holds exactly when the name is some string followed by ".class" |
| AsmResourceHandler.RemoveConsumedIsRemoveFound | src/com/googlecode/compilo/tco/AsmResourceHandler.java:70 | the by-cases removal is the source's `invisibleAnnotations.remove(annotations(method).find(annotation(T)).get())` |
| AsmResourceHandler.HasAnnotationSplit | src/com/googlecode/compilo/tco/AsmResourceHandler.java:68 | a method carries T exactly when a visible node has T's descriptor or `find` over the invisible list succeeds |
| AsmResourceHandler.RemoveConsumedErrors | src/com/googlecode/compilo/tco/AsmResourceHandler.java:70 | removal fails with "not found" exactly when the method no longer carries T, fails on a null invisible list exactly when it carries T and that list is null, and a success has a non-null invisible list |
| AsmResourceHandler.RemoveConsumedSpec | src/com/googlecode/compilo/tco/AsmResourceHandler.java:70 | removal changes only the invisible list; with a visible node of type T it changes nothing; otherwise it takes out exactly the first invisible node of type T, adding nothing |
| AsmResourceHandler.CountRemoveAt | src/com/googlecode/compilo/tco/AsmResourceHandler.java:70 | removing one node lowers the count of type T by one exactly when that node has type T |
| AsmResourceHandler.HasAnnotationIffCount | src/com/googlecode/compilo/tco/AsmResourceHandler.java:68 | a method carries T exactly when the visible and invisible lists together hold a node of type T |
| AsmResourceHandler.ProcessMethodOthers | src/com/googlecode/compilo/tco/AsmResourceHandler.java:67-72 | the registrations looking at method i leave every other method as it was |
| AsmResourceHandler.RunRegistrations | src/com/googlecode/compilo/tco/AsmResourceHandler.java:67-72 | the inner loop over the registrations for one method, in place on the array, ends in the state the specification gives for that method, or stops with its failure, which is never a malformed class |
| AsmResourceHandler.Handle | src/com/googlecode/compilo/tco/AsmResourceHandler.java:60-78 | the in-place loops over methods and registrations give the specification's result; a written resource keeps the input's name; a class that cannot be read is reported as malformed and nothing else is |
| AsmResourceHandler.EmptyHandlerChangesNothing | src/com/googlecode/compilo/tco/AsmResourceHandler.java:66-73 | with no registrations no processor is invoked and the class is written back as it was read |
| AsmResourceHandler.DispatchOrder | src/com/googlecode/compilo/tco/AsmResourceHandler.java:66-69 | invocations come in method order, and within a method in registration order; each was made on a method that carried the registration's annotation at that moment |
| AsmResourceHandler.FirstRegistrationDispatched | src/com/googlecode/compilo/tco/AsmResourceHandler.java:66-69 | in a successful handle, the first registration is invoked on method j as it was read exactly when that method carries the registration's annotation |
| AsmResourceHandler.OnlyAnnotatedMethodsTouched | src/com/googlecode/compilo/tco/AsmResourceHandler.java:66-72 | a method carrying none of the registered annotations is never passed to a processor and comes out unchanged, annotation lists included |
| AsmResourceHandler.AddedProcessorFirst | src/com/googlecode/compilo/tco/AsmResourceHandler.java:50-52 | after `add`, on a method carrying the new annotation, the new processor is the next one invoked |
| AsmResourceHandler.AddedProcessorDispatched | src/com/googlecode/compilo/tco/AsmResourceHandler.java:50-52 | after `add`, a successful handle invokes the new processor on every method of the class that carries the new annotation |
| AsmResourceHandler.RemoveConsumedCounts | src/com/googlecode/compilo/tco/AsmResourceHandler.java:70 | removal keeps the visible list, removes no node of another type, and removes one node of type T when no visible node has type T |
| AsmResourceHandler.FirstRunConsumes | src/com/googlecode/compilo/tco/AsmResourceHandler.java:67-72 | when no processor adds a node of type T, a method that has no visible T keeps none, holds at most one invisible T before any registration for T has run and none once one has; so after all its registrations it holds no T when some registration is for T |
| AsmResourceHandler.NotCarriedNeverInvoked | src/com/googlecode/compilo/tco/AsmResourceHandler.java:66-73 | when no processor gives T to a method that lacks it, a method that does not carry T is never passed to a processor for T and still lacks T afterwards |
| AsmResourceHandler.SecondRunSkips | src/com/googlecode/compilo/tco/AsmResourceHandler.java:66-73 | when no processor adds a node of type T and some registration is for T, a method with exactly one invisible (and no visible) T loses it in `handle`, and running the registrations again over the rewritten tree itself never passes that method to a processor for T |
| AsmResourceHandler.SecondHandleSkips | src/com/googlecode/compilo/tco/AsmResourceHandler.java:60-78 | under the same hypotheses, and when reading back a written class keeps each method's position and annotations, a second `handle` run on the class read from the first one's output never passes that method to a processor for T |
| AsmResourceHandler.HandleKeepsName | src/com/googlecode/compilo/tco/AsmResourceHandler.java:75-77 | a successful handle writes the rewritten class under the input's resource name |
| BootStrap.BuildFile | src/com/googlecode/compilo/BootStrap.java:129-132 | a build file found is in the working-directory listing and ends with "uild.java" |
| BootStrap.BuildFileFirst | src/com/googlecode/compilo/BootStrap.java:129-132 | no build file exactly when no name ends with "uild.java"; otherwise the one chosen is the first such name in listing order |
| BootStrap.ClassName | src/com/googlecode/compilo/BootStrap.java:138-140 | the class name contains no '.' and is no longer than the file name |
| BootStrap.ClassNameOfSource | src/com/googlecode/compilo/BootStrap.java:138-140 | a build-file name of the form "<base>.java", where base has no dot, gives the class name base |
| BootStrap.DependencyDir | src/com/googlecode/compilo/BootStrap.java:83 | a dependency file is materialised into a directory under lib/ |
| BootStrap.DependencyDirOfFile | src/com/googlecode/compilo/BootStrap.java:83 | the file "<base>.dependencies", where base has no dot, is materialised into lib/<base> |
| BootStrap.UpdateFailureFirst | src/com/googlecode/compilo/BootStrap.java:80-85 | the update fails exactly when some dependency update fails, and the failure reported is the first one in listing order |
| BootStrap.Libs | src/com/googlecode/compilo/BootStrap.java:117-127 | the library path succeeds exactly when the tool's jar is located, and then ends with it; a URISyntaxException from locating it becomes IllegalStateException "Can't find compilo.jar", and any other exception from locating it is passed on as it is |
| BootStrap.LibsOrder | src/com/googlecode/compilo/BootStrap.java:117-119 | every path before the tool's jar is a jar found under lib/, every jar found under lib/ is among them, and a lib/ holding only jars contributes all of them in listing order |
| BootStrap.NoBuildFileUsesAutoBuild | src/com/googlecode/compilo/BootStrap.java:97-115 | with no build file the class is AutoBuild, whatever the compiler, the class loader and the tool's jar would do |
| BootStrap.Seconds | src/com/googlecode/compilo/BootStrap.java:72-74 | a non-negative elapsed time gives the whole number of seconds s with s * 10^9 <= elapsed < (s + 1) * 10^9 |
| BootStrap.SecondsTruncates | src/com/googlecode/compilo/BootStrap.java:72-74 | Java's long division truncates toward zero: the seconds of -x are minus the seconds of x, and less than one second in either direction is 0 |
| BootStrap.ReportSeconds | src/com/googlecode/compilo/BootStrap.java:66-74 | report prints an empty line, "BUILD " and the message, then "Total time: <digits> seconds", where the digits read back as the whole seconds elapsed |
| BootStrap.FailureMessage | src/com/googlecode/compilo/BootStrap.java:60 | a failure report is "FAILED: ", the exception's class name, a space, the message ("null" when there is none) and a line break |
| BootStrap.Header | src/com/googlecode/compilo/BootStrap.java:50-51 | the first line is "build: " followed by the build file's path under the working directory, or by the AutoBuild class when there is no build file |
| BootStrap.UpdateText | src/com/googlecode/compilo/BootStrap.java:77-79 | update prints nothing exactly when build/ holds no dependency files |
| BootStrap.UpdateFailsOnlyWithDependencies | src/com/googlecode/compilo/BootStrap.java:77-78 | with no dependency files the update cannot fail |
| BootStrap.StagesInOrder | src/com/googlecode/compilo/BootStrap.java:47-63 | build enters a prefix of the six stages (find build file, print, update, find class, create, run), at least up to update; it stops at the first stage that throws, and the exception reported is that stage's: the update's failure when it stops after three stages, the class lookup's after four, the creation's after five |
| BootStrap.ExitCode | src/com/googlecode/compilo/BootStrap.java:47-63 | the exit code is 0 exactly when no stage threw and -1 otherwise; success means all six stages ran and the report says SUCCESSFUL; failure reports the exception; the output begins with the header and the update line |
| BootStrap.NoBuildFileHeader | src/com/googlecode/compilo/BootStrap.java:50-51 | without a build file the output begins "build: class com.googlecode.compilo.convention.AutoBuild" |
| BootStrap.NoBuildFileRun | src/com/googlecode/compilo/BootStrap.java:97-115 | without a build file the exit code and output do not depend on the compiler, the class loader or the tool's jar |
| BootStrap.UpdateFailureSameUpdater | src/com/googlecode/compilo/BootStrap.java:80-85 | the update's outcome depends only on the downloader and the working directory |
| BootStrap.NoDependenciesNoUpdate | src/com/googlecode/compilo/BootStrap.java:77-78 | with no dependency files, update prints nothing and the downloader is never consulted |
| BootStrap.BootStrap.constructor | src/com/googlecode/compilo/BootStrap.java:38-41 | the bootstrap keeps the environment, lib/ is joined under the working directory, and nothing has been printed |
| BootStrap.BootStrap.Report | src/com/googlecode/compilo/BootStrap.java:66-70 | report appends exactly the three report lines to the output |
| BootStrap.BootStrap.Update | src/com/googlecode/compilo/BootStrap.java:76-86 | update appends "update:" only when there are dependency files, runs every update, and returns the first failure in listing order |
| BootStrap.BootStrap.Build | src/com/googlecode/compilo/BootStrap.java:47-63 | build returns the exit code and appends the output that the stage specification gives |

## Left out

- Reading and writing class files (ASM's ClassReader and ClassWriter) and the CheckClassAdapter are uninterpreted function parameters of `handle` (`parse`, `write`, `check`). A class that cannot be read shows up as `MalformedClass`, a failed check as `VerificationFailed`.
- Descriptor parsing (`Type.getType`, `getArgumentTypes`) is not modelled. Types and method descriptors are held in parsed form, and `MethodDescriptor` prints them. `getOpcode(ILOAD)` is modelled as ASM's table (`Asm.Load`); `getOpcode` with the other base opcodes (ISTORE, IRETURN and the rest) is left out, because the core does not call it.
- Asm.InitialLocalVariables: the source prepends `Type.getType(classNode.name)`, which parses the internal name as a descriptor. A name starting with a primitive letter (B, C, D, F, I, J, S, V, Z) gives that primitive type, and a name such as "com/foo/Bar" is rejected or misread, depending on the ASM version. So the prepended type is almost never the class's own object type. The model prepends the class's object type, which is what `Type.getObjectType(classNode.name)` gives and what the code evidently intends. The as-written behaviour is not modelled.
- `Asm.ArgumentTypes`, `Asm.CallArgumentTypes`, `Asm.IsStatic`, `Asm.IsAbstract` and `Asm.IsStaticCall` carry no contract of their own. They are definitions: an argument list read off the parsed descriptor and a single flag or opcode test.
- The `toString` multimethods and the reflective `Opcodes` lookup are left out, because they depend on reflection and runtime dispatch. So are `store`, `returns`, `instructions`, `localVariables`, `classNode`, `methods`, `verify` and the `functions` mappers, which are not in the modelled core.
- Asm.Construct: `InsnList.add(InsnList)` moves the argument's instructions out of the argument list. The model copies them, so the emptying of the arguments (aliasing) is not captured.
- AsmResourceHandler.Handle: processors are pure functions from (class, method) to the processed method. A processor that throws, which `handle` lets propagate to its caller, is not modelled: every processor returns. Changes a processor makes to other parts of the class (fields, other methods) are not modelled. The class a processor sees holds the method being processed at its own position.
- AsmResourceHandler.FirstRunConsumes, AsmResourceHandler.SecondRunSkips, AsmResourceHandler.SecondHandleSkips: these hold under the hypothesis that no processor adds a node of the annotation type in question (`AddsNone`). The source does not promise that of its processors, and a processor that adds one can make a method carry the annotation again.
- AsmResourceHandler.NotCarriedNeverInvoked: this holds under the weaker hypothesis that no processor gives the annotation to a method that lacks it (`KeepsLacking`, which follows from `AddsNone`). The source does not promise that either.
- AsmResourceHandler.SecondHandleSkips: reading a class back from the bytes written for it is a parameter (`parse`, `write`). The lemma assumes that the round trip keeps every method at its position with the annotations it carried (`ReadBackKeepsAnnotations`); ASM's reader and writer are not modelled, so this is not proved.
- AsmResourceHandler.FirstRegistrationDispatched: that a registration is invoked whenever the method carries its annotation at that moment is stated for the whole handle only for the first registration, whose view of the method is the method as read. For a later registration it is stated for one step (`StepRemoves`), because what the method looks like after the earlier registrations depends on the processors.
- Resource: a Resource is a value, so two resources with the same name, date and bytes are equal. Java's AResource has no `equals` and compares by identity. `bytes()` hands out the array the resource holds, so a caller can change a resource's bytes; that aliasing is not modelled.
- `Resource.resource(Class)` reads a class file from the class path and the current date. That is I/O and is left out. The two-argument `resource(name, bytes)` takes its timestamp as the `modified` parameter.
- The directory-creating side effect of totallylazy's `directory(...)` is left out.
- Files.Join: paths are joins with "/" only; java.io.File's normalisation is not modelled. With the root "/" as working directory, Java's lib directory is "/lib" and the model's is "//lib". Java also drops trailing and repeated separators, and it resolves an empty parent against the root.
- `LocationsConvention` takes `versionedArtifact` as a field, because IdentifiersConvention is not part of this model.
- BootStrap: `nanoTime` becomes the `elapsedNanos` parameter, and `System.exit` becomes the returned exit code. `SimpleContainer`, `ByteClassLoader`/`MemoryStore`, javac (`compile`, including opening the build file) and `Dependencies.update` are outcome functions in `Environment`.
- BootStrap.BootStrap.Update: `mapConcurrently` is modelled sequentially. Every update runs, and the exception reported is the first failure in listing order; which of several concurrent failures Java would surface is not modelled. The boolean that `Dependencies.update` returns is ignored, as the source ignores it.
- Output that the compiler, the downloader or the build itself prints is not part of `out`. `println` and `%n` are written as "\n".
- `className` replaces every '.' by '/' after removing ".java", as the source writes it.
- BootStrap.Stages: a stage's outcome stands for an `Exception` only. `build` catches `Exception` (BootStrap.java:59), so an `Error` such as a LinkageError or StackOverflowError escapes `build` without a report and without returning -1. That path is not modelled.
- BootStrap.Stages: `Option.map` in `findBuildClass` and `mapConcurrently` in `update` may wrap the exception a stage throws in another exception. That wrapping is not modelled; the stage's own exception is taken to be the one reported.
- BootStrap.Libs: the listing of lib/ (`libFiles`) is the one taken when the build class is found, after the update. What the update writes into lib/ is not modelled, so `libFiles` is a given listing and not derived from the update.
- `hasSuffix(s)` is read as "the file name ends with '.' followed by s".
- SourceFileObject, Outputs and FileUrls are not part of this model: they are I/O wrappers.

## Findings

| source | as written | input that shows it | evidently intended | confidence | as-written member | corrected member |
|---|---|---|---|---|---|---|
| src/com/googlecode/jcompilo/asm/Asm.java:216-221 | `constructor` loads field i from local slot i + 1 | fields (long a, int b): b is loaded from slot 2, which holds the second half of a; b is in slot 3 (section 2.6.1 of the JVM specification: long and double take two slots) | field i is loaded from slot 1 + the sizes of the fields before it | not executed | Asm.ConstructorAsWritten (counterexample Asm.AsWrittenSlotMisreadsAfterLong) | Asm.Constructor |
