/**
 * BootStrap: the command-line entry that builds a project. It looks for a build file in the working
 * directory, prints which build it runs, materialises the declared dependencies into lib/, compiles and
 * loads the build class (or falls back to the conventional AutoBuild), creates it, runs it, and reports
 * success or failure with the elapsed time. The file system listing, the compiler, the class loader, the
 * dependency downloader, the container and the build itself are parts of an Environment value; the clock
 * reading is a parameter.
 */
module BootStrap {
  import opened Wrappers
  import opened Strings
  import opened Files

  /** A Java exception as `build` reports it: the class name and the message, which may be null. */
  datatype Exception = Exception(className: string, message: Option<string>)

  /** The class `findBuildClass` yields: the conventional AutoBuild, or the compiled build class of this name. */
  datatype BuildClass = AutoBuildClass | LoadedClass(name: string)

  datatype Environment = Environment(
    workingDirectory: string,
    /** Names of the files directly in the working directory, in listing order. */
    workingFiles: seq<string>,
    /** Names of the files directly in build/, in listing order. */
    buildDirFiles: seq<string>,
    /** Paths of every file under lib/, in the recursive listing's order. */
    libFiles: seq<string>,
    /**
     * Locating the running jar (code source, location, toURI, new File): its path, or what that throws,
     * e.g. a NullPointerException for a missing code source or a URISyntaxException from toURI.
     */
    compiloJar: Result<string, Exception>,
    /** Dependencies.load(file).update(directory): what it throws, if anything (its boolean result is ignored). */
    updateDependency: (string, string) -> Option<Exception>,
    /** compile(libs, source at path, named name): what it throws, if anything. */
    compile: (seq<string>, string, string) -> Option<Exception>,
    /** loadClass(className) with the compiled classes and the libraries on the class path. */
    loadClass: (seq<string>, string) -> Option<Exception>,
    /** createBuildClass: the container instantiating the class. */
    create: BuildClass -> Option<Exception>,
    /** build.build() on the created instance. */
    runBuild: BuildClass -> Option<Exception>)

  const BUILD_FILE_SUFFIX := "uild.java"
  const AUTO_BUILD := "class com.googlecode.compilo.convention.AutoBuild"
  const NANOS_PER_SECOND := 1000000000
  const NO_COMPILO_JAR := Exception("java.lang.IllegalStateException", Some("Can't find compilo.jar"))
  const URI_SYNTAX_EXCEPTION := "java.net.URISyntaxException"

  // ----- Pure pieces -----

  /** buildFile(): the first working-directory file whose name ends with "uild.java" (see BuildFileFirst). */
  function BuildFile(listing: seq<string>): (r: Option<string>)
    ensures r.Some? ==> r.value in listing && EndsWith(r.value, BUILD_FILE_SUFFIX)
  {
    if |listing| == 0 then None
    else if EndsWith(listing[0], BUILD_FILE_SUFFIX) then Some(listing[0])
    else BuildFile(listing[1..])
  }

  /** No build file exactly when no name ends with "uild.java"; otherwise the one chosen is the first such name. */
  lemma {:induction false} BuildFileFirst(listing: seq<string>)
    ensures BuildFile(listing).None? <==> forall i :: 0 <= i < |listing| ==> !EndsWith(listing[i], BUILD_FILE_SUFFIX)
    ensures BuildFile(listing).Some? ==>
              exists i :: 0 <= i < |listing| && listing[i] == BuildFile(listing).value
                && forall j :: 0 <= j < i ==> !EndsWith(listing[j], BUILD_FILE_SUFFIX)
  {
    if |listing| > 0 && !EndsWith(listing[0], BUILD_FILE_SUFFIX) {
      var rest := listing[1..];
      BuildFileFirst(rest);
      assert forall i :: 0 <= i < |rest| ==> rest[i] == listing[i + 1];
      if BuildFile(rest).Some? {
        var i :| 0 <= i < |rest| && rest[i] == BuildFile(rest).value
          && forall j :: 0 <= j < i ==> !EndsWith(rest[j], BUILD_FILE_SUFFIX);
        assert listing[i + 1] == BuildFile(listing).value;
      }
    }
  }

  /** className: every ".java" removed, then every '.' turned into '/'. */
  function ClassName(name: string): (r: string)
    ensures '.' !in r
    ensures |r| <= |name|
  {
    ReplaceCharRemoves(RemoveAll(name, ".java"), '.', '/');
    ReplaceChar(RemoveAll(name, ".java"), '.', '/')
  }

  /** A plain build-file name, such as "Build.java", names the class "Build". */
  lemma ClassNameOfSource(base: string)
    requires '.' !in base
    ensures ClassName(base + ".java") == base
  {
    RemoveAllTrailing(base, ".java");
    ReplaceCharAt(base, '.', '/');
    var r := ReplaceChar(base, '.', '/');
    assert forall i :: 0 <= i < |base| ==> base[i] != '.';
    assert r == base;
  }

  /** The files of build/ that declare dependencies. */
  function DependencyFiles(env: Environment): seq<string> {
    Filter(env.buildDirFiles, (n: string) => HasSuffix(n, "dependencies"))
  }

  /** Where a dependency file is materialised: lib/ and the file name with ".dependencies" removed. */
  function DependencyDir(libDir: string, name: string): (d: string)
    ensures StartsWith(d, libDir + "/")
  {
    Join(libDir, RemoveAll(name, ".dependencies"))
  }

  lemma DependencyDirOfFile(libDir: string, base: string)
    requires '.' !in base
    ensures DependencyDir(libDir, base + ".dependencies") == libDir + "/" + base
  {
    RemoveAllTrailing(base, ".dependencies");
  }

  /** Dependency files i.. in order: stops at nothing, but the first failure is the one reported. */
  function UpdateFailure(env: Environment, libDir: string, deps: seq<string>): (r: Option<Exception>)
    decreases |deps|
  {
    if |deps| == 0 then None
    else
      var prefix := UpdateFailure(env, libDir, deps[..|deps| - 1]);
      if prefix.Some? then prefix
      else env.updateDependency(Join(Join(env.workingDirectory, "build"), deps[|deps| - 1]), DependencyDir(libDir, deps[|deps| - 1]))
  }

  /** The update of dependency file `name`. */
  function UpdateOf(env: Environment, libDir: string, name: string): Option<Exception> {
    env.updateDependency(Join(Join(env.workingDirectory, "build"), name), DependencyDir(libDir, name))
  }

  /** The failure reported is the first failing update in listing order; no failure means every update succeeded. */
  lemma {:induction false} UpdateFailureFirst(env: Environment, libDir: string, deps: seq<string>)
    ensures UpdateFailure(env, libDir, deps).None? <==> forall i :: 0 <= i < |deps| ==> UpdateOf(env, libDir, deps[i]).None?
    ensures UpdateFailure(env, libDir, deps).Some? ==>
              exists i :: 0 <= i < |deps| && UpdateOf(env, libDir, deps[i]) == UpdateFailure(env, libDir, deps)
                && forall j :: 0 <= j < i ==> UpdateOf(env, libDir, deps[j]).None?
    decreases |deps|
  {
    if |deps| > 0 {
      var p := deps[..|deps| - 1];
      UpdateFailureFirst(env, libDir, p);
      assert forall i :: 0 <= i < |p| ==> p[i] == deps[i];
    }
  }

  /**
   * The library path: every jar under lib/ in listing order, then the tool's own jar. compiloJar turns
   * a URISyntaxException into "Can't find compilo.jar"; whatever else locating the jar throws gets through.
   */
  function Libs(env: Environment): (r: Result<seq<string>, Exception>)
    ensures env.compiloJar.Success? <==> r.Success?
    ensures env.compiloJar.Failure? && env.compiloJar.error.className == URI_SYNTAX_EXCEPTION ==> r == Failure(NO_COMPILO_JAR)
    ensures env.compiloJar.Failure? && env.compiloJar.error.className != URI_SYNTAX_EXCEPTION ==> r == Failure(env.compiloJar.error)
    ensures r.Success? ==> |r.value| > 0 && r.value[|r.value| - 1] == env.compiloJar.value
  {
    match env.compiloJar
    case Failure(e) => if e.className == URI_SYNTAX_EXCEPTION then Failure(NO_COMPILO_JAR) else Failure(e)
    case Success(jar) => Success(Filter(env.libFiles, (p: string) => HasSuffix(p, "jar")) + [jar])
  }

  /**
   * Every path before the tool's jar is a jar found under lib/, every jar found under lib/ is among them,
   * and a lib/ holding only jars contributes all of them in order.
   */
  lemma LibsOrder(env: Environment)
    requires env.compiloJar.Success?
    ensures var libs := Libs(env).value;
      && (forall i :: 0 <= i < |libs| - 1 ==> libs[i] in env.libFiles && HasSuffix(libs[i], "jar"))
      && (forall p :: p in env.libFiles && HasSuffix(p, "jar") ==> p in libs[..|libs| - 1])
      && ((forall i :: 0 <= i < |env.libFiles| ==> HasSuffix(env.libFiles[i], "jar")) ==> libs == env.libFiles + [env.compiloJar.value])
  {
    var keep := (p: string) => HasSuffix(p, "jar");
    var jars := Filter(env.libFiles, keep);
    assert Libs(env).value == jars + [env.compiloJar.value];
    assert Libs(env).value[..|Libs(env).value| - 1] == jars;
    FilterMembers(env.libFiles, keep);
    forall i | 0 <= i < |jars| ensures jars[i] in env.libFiles && HasSuffix(jars[i], "jar") {
      assert jars[i] in jars;
    }
    if forall i :: 0 <= i < |env.libFiles| ==> HasSuffix(env.libFiles[i], "jar") {
      FilterKeepsAll(env.libFiles, keep);
    }
  }

  /** findBuildClass: AutoBuild without a build file; otherwise compile it against the libraries and load its class. */
  function FindBuildClass(env: Environment, buildFile: Option<string>): Result<BuildClass, Exception> {
    match buildFile
    case None => Success(AutoBuildClass)
    case Some(name) =>
      match Libs(env)
      case Failure(e) => Failure(e)
      case Success(libs) =>
        if env.compile(libs, Join(env.workingDirectory, name), name).Some? then Failure(env.compile(libs, Join(env.workingDirectory, name), name).value)
        else if env.loadClass(libs, ClassName(name)).Some? then Failure(env.loadClass(libs, ClassName(name)).value)
        else Success(LoadedClass(ClassName(name)))
  }

  /** Without a build file the conventional build is used, and nothing is compiled or loaded. */
  lemma NoBuildFileUsesAutoBuild(env: Environment, compile: (seq<string>, string, string) -> Option<Exception>,
                                 loadClass: (seq<string>, string) -> Option<Exception>, jar: Result<string, Exception>)
    ensures FindBuildClass(env, None) == Success(AutoBuildClass)
    ensures FindBuildClass(env, None) == FindBuildClass(env.(compile := compile, loadClass := loadClass, compiloJar := jar), None)
  {
  }

  /** calculateSeconds: Java's long division, which truncates toward zero. */
  function Seconds(elapsedNanos: int): (s: int)
    ensures elapsedNanos >= 0 ==> s >= 0 && s * NANOS_PER_SECOND <= elapsedNanos < (s + 1) * NANOS_PER_SECOND
  {
    if elapsedNanos >= 0 then elapsedNanos / NANOS_PER_SECOND else -((-elapsedNanos) / NANOS_PER_SECOND)
  }

  /** Truncation is symmetric: a negative difference reports minus the seconds of its magnitude. */
  lemma SecondsTruncates(elapsedNanos: int)
    ensures Seconds(-elapsedNanos) == -Seconds(elapsedNanos)
    ensures -NANOS_PER_SECOND < elapsedNanos < NANOS_PER_SECOND ==> Seconds(elapsedNanos) == 0
  {
  }

  /** What report prints: an empty line, "BUILD " and the message, then the total time in whole seconds. */
  function ReportText(message: string, elapsedNanos: int): string {
    "\n" + "BUILD " + message + "\n" + "Total time: " + IntToString(Seconds(elapsedNanos)) + " seconds\n"
  }

  /** The time line shows the number of whole seconds, which reads back from its digits. */
  lemma ReportSeconds(message: string, elapsedNanos: int)
    requires elapsedNanos >= 0
    ensures var text := ReportText(message, elapsedNanos);
      var digits := NatToString(elapsedNanos / NANOS_PER_SECOND);
      && text == "\nBUILD " + message + "\nTotal time: " + digits + " seconds\n"
      && IsDigits(digits)
      && ParseDigits(digits) * NANOS_PER_SECOND <= elapsedNanos < (ParseDigits(digits) + 1) * NANOS_PER_SECOND
  {
    ParseNatToString(elapsedNanos / NANOS_PER_SECOND);
  }

  /** String.format("%s", message): a null message prints as "null". */
  function MessageText(message: Option<string>): string {
    if message.Some? then message.value else "null"
  }

  /** The message of a failed build: "FAILED: ", the exception's class name, its message, a line break. */
  function FailureMessage(e: Exception): (m: string)
    ensures e.message.Some? ==> m == "FAILED: " + e.className + " " + e.message.value + "\n"
    ensures e.message.None? ==> m == "FAILED: " + e.className + " null\n"
  {
    "FAILED: " + e.className + " " + MessageText(e.message) + "\n"
  }

  /** The first line: the build file's path, or the AutoBuild class as Class.toString prints it. */
  function Header(env: Environment): (h: string)
    ensures StartsWith(h, "build: ")
    ensures BuildFile(env.workingFiles).None? ==> h == "build: " + AUTO_BUILD + "\n"
    ensures BuildFile(env.workingFiles).Some? ==> h == "build: " + Join(env.workingDirectory, BuildFile(env.workingFiles).value) + "\n"
  {
    match BuildFile(env.workingFiles)
    case None => "build: " + AUTO_BUILD + "\n"
    case Some(name) => "build: " + Join(env.workingDirectory, name) + "\n"
  }

  /** What update prints: nothing when there are no dependency files, otherwise one "update:" line. */
  function UpdateText(env: Environment): (t: string)
    ensures |DependencyFiles(env)| == 0 <==> t == ""
  {
    if |DependencyFiles(env)| == 0 then "" else "update:\n"
  }

  // ----- The build, as a specification -----

  datatype Stage = FindBuildFileStage | PrintBuildFileStage | UpdateStage | FindBuildClassStage | CreateBuildClassStage | RunBuildStage

  const ALL_STAGES := [FindBuildFileStage, PrintBuildFileStage, UpdateStage, FindBuildClassStage, CreateBuildClassStage, RunBuildStage]

  /** The stages `build` entered, in order, and the exception that ended it, if any. */
  datatype Attempt = Attempt(stages: seq<Stage>, failure: Option<Exception>)

  /** The stages entered given what update, findBuildClass, the container and the build do. */
  function Attempted(update: Option<Exception>, found: Result<BuildClass, Exception>,
                     create: BuildClass -> Option<Exception>, runBuild: BuildClass -> Option<Exception>): Attempt
  {
    if update.Some? then Attempt(ALL_STAGES[..3], update)
    else match found
      case Failure(e) => Attempt(ALL_STAGES[..4], Some(e))
      case Success(cls) =>
        if create(cls).Some? then Attempt(ALL_STAGES[..5], create(cls))
        else Attempt(ALL_STAGES, runBuild(cls))
  }

  function Stages(env: Environment): Attempt {
    Attempted(UpdateFailure(env, Join(env.workingDirectory, "lib"), DependencyFiles(env)),
              FindBuildClass(env, BuildFile(env.workingFiles)), env.create, env.runBuild)
  }

  /** What `build` returns and prints. */
  datatype Run = Run(exitCode: int, output: string)

  function BuildRun(env: Environment, elapsedNanos: int): Run {
    var attempt := Stages(env);
    var outcome := if attempt.failure.None? then "SUCCESSFUL" else FailureMessage(attempt.failure.value);
    Run(if attempt.failure.None? then 0 else -1, Header(env) + UpdateText(env) + ReportText(outcome, elapsedNanos))
  }

  /** A failed update means there was a dependency file to update. */
  lemma UpdateFailsOnlyWithDependencies(env: Environment, libDir: string)
    requires |DependencyFiles(env)| == 0
    ensures UpdateFailure(env, libDir, DependencyFiles(env)) == None
  {
  }

  /**
   * Stage ordering: `build` enters a prefix of the six stages, at least up to update; it stops at the first
   * stage that throws, so it enters all six exactly when every stage before the last succeeded, and the
   * exception reported is the one that stage threw.
   */
  lemma {:induction false} StagesInOrder(env: Environment)
    ensures var a := Stages(env);
      && 3 <= |a.stages| <= 6 && a.stages == ALL_STAGES[..|a.stages|]
      && (|a.stages| < 6 ==> a.failure.Some?)
      && (a.stages == ALL_STAGES[..3] <==> UpdateFailure(env, Join(env.workingDirectory, "lib"), DependencyFiles(env)).Some?)
      && (|a.stages| >= 4 ==> UpdateFailure(env, Join(env.workingDirectory, "lib"), DependencyFiles(env)).None?)
      && (|a.stages| >= 5 ==> FindBuildClass(env, BuildFile(env.workingFiles)).Success?)
      && (|a.stages| == 3 ==> a.failure == UpdateFailure(env, Join(env.workingDirectory, "lib"), DependencyFiles(env)))
      && (|a.stages| == 4 ==> FindBuildClass(env, BuildFile(env.workingFiles)).Failure?
                              && a.failure == Some(FindBuildClass(env, BuildFile(env.workingFiles)).error))
      && (|a.stages| == 5 ==> a.failure == env.create(FindBuildClass(env, BuildFile(env.workingFiles)).value))
      && (|a.stages| == 6 ==> env.create(FindBuildClass(env, BuildFile(env.workingFiles)).value).None?
                              && a.failure == env.runBuild(FindBuildClass(env, BuildFile(env.workingFiles)).value))
  {
    assert ALL_STAGES[..6] == ALL_STAGES;
  }

  /** Exit code 0 exactly when no stage threw, -1 otherwise; the report names the outcome. */
  lemma ExitCode(env: Environment, elapsedNanos: int)
    ensures var r := BuildRun(env, elapsedNanos);
      var a := Stages(env);
      && (r.exitCode == 0 <==> a.failure.None?)
      && (r.exitCode == 0 || r.exitCode == -1)
      && (r.exitCode == 0 ==> a.stages == ALL_STAGES && EndsWith(r.output, ReportText("SUCCESSFUL", elapsedNanos)))
      && (r.exitCode == -1 ==> EndsWith(r.output, ReportText(FailureMessage(a.failure.value), elapsedNanos)))
      && StartsWith(r.output, Header(env) + UpdateText(env))
  {
    StagesInOrder(env);
    var r := BuildRun(env, elapsedNanos);
    var a := Stages(env);
    var outcome := if a.failure.None? then "SUCCESSFUL" else FailureMessage(a.failure.value);
    assert r.output == (Header(env) + UpdateText(env)) + ReportText(outcome, elapsedNanos);
  }

  /** Without a build file the first line names AutoBuild. */
  lemma NoBuildFileHeader(env: Environment, elapsedNanos: int)
    requires BuildFile(env.workingFiles).None?
    ensures StartsWith(BuildRun(env, elapsedNanos).output, "build: " + AUTO_BUILD + "\n")
  {
    ExitCode(env, elapsedNanos);
  }

  /** Without a build file the result does not depend on the compiler, the class loader or the tool's jar. */
  lemma NoBuildFileRun(env: Environment, elapsedNanos: int, compile: (seq<string>, string, string) -> Option<Exception>,
                       loadClass: (seq<string>, string) -> Option<Exception>, jar: Result<string, Exception>)
    requires BuildFile(env.workingFiles).None?
    ensures BuildRun(env, elapsedNanos) == BuildRun(env.(compile := compile, loadClass := loadClass, compiloJar := jar), elapsedNanos)
  {
    var env' := env.(compile := compile, loadClass := loadClass, compiloJar := jar);
    var libDir := Join(env.workingDirectory, "lib");
    assert DependencyFiles(env') == DependencyFiles(env);
    UpdateFailureSameUpdater(env, env', libDir, DependencyFiles(env));
    assert FindBuildClass(env', BuildFile(env'.workingFiles)) == FindBuildClass(env, BuildFile(env.workingFiles));
    assert Stages(env') == Stages(env);
    assert Header(env') == Header(env) && UpdateText(env') == UpdateText(env);
  }

  lemma {:induction false} UpdateFailureSameUpdater(env: Environment, env': Environment, libDir: string, deps: seq<string>)
    requires env'.updateDependency == env.updateDependency && env'.workingDirectory == env.workingDirectory
    ensures UpdateFailure(env', libDir, deps) == UpdateFailure(env, libDir, deps)
    decreases |deps|
  {
    if |deps| > 0 {
      UpdateFailureSameUpdater(env, env', libDir, deps[..|deps| - 1]);
    }
  }

  /** With no dependency files update prints nothing and the downloader is never consulted. */
  lemma NoDependenciesNoUpdate(env: Environment, updater: (string, string) -> Option<Exception>)
    requires forall i :: 0 <= i < |env.buildDirFiles| ==> !HasSuffix(env.buildDirFiles[i], "dependencies")
    ensures UpdateText(env) == ""
    ensures Stages(env) == Stages(env.(updateDependency := updater))
  {
    FilterKeepsNone(env.buildDirFiles, (n: string) => HasSuffix(n, "dependencies"));
    var env' := env.(updateDependency := updater);
    assert DependencyFiles(env') == DependencyFiles(env) == [];
    assert FindBuildClass(env', BuildFile(env.workingFiles)) == FindBuildClass(env, BuildFile(env.workingFiles));
  }

  /** Text printed in two steps is the first part followed by both later parts at once. */
  lemma AppendAssociates(a: string, b: string, c: string)
    ensures (a + b) + c == a + (b + c)
  {
  }

  // ----- The program -----

  /** BootStrap: the environment, lib/ under the working directory, and the text printed so far. */
  class BootStrap {
    const env: Environment
    const libDir: string
    var out: string

    constructor(env: Environment)
      ensures this.env == env && libDir == Join(env.workingDirectory, "lib") && out == ""
    {
      this.env := env;
      libDir := Join(env.workingDirectory, "lib");
      out := "";
    }

    /** report(message, start): three lines appended to the output. */
    method Report(message: string, elapsedNanos: int)
      modifies this
      ensures out == old(out) + ReportText(message, elapsedNanos)
    {
      out := out + "\n";
      out := out + "BUILD " + message + "\n";
      out := out + "Total time: " + IntToString(Seconds(elapsedNanos)) + " seconds\n";
    }

    /** update(): returns early when build/ holds no dependency files; otherwise prints "update:" and runs every update. */
    method Update() returns (thrown: Option<Exception>)
      requires libDir == Join(env.workingDirectory, "lib")
      modifies this
      ensures out == old(out) + UpdateText(env)
      ensures thrown == UpdateFailure(env, libDir, DependencyFiles(env))
    {
      var deps := DependencyFiles(env);
      if |deps| == 0 {
        return None;
      }
      out := out + "update:\n";
      thrown := None;
      var i := 0;
      while i < |deps|
        invariant 0 <= i <= |deps|
        invariant thrown == UpdateFailure(env, libDir, deps[..i])
      {
        var result := env.updateDependency(Join(Join(env.workingDirectory, "build"), deps[i]), DependencyDir(libDir, deps[i]));
        assert deps[..i + 1][..i] == deps[..i];
        if thrown.None? {
          thrown := result;
        }
        i := i + 1;
      }
      assert deps[..i] == deps;
    }

    /** build(): the stages in order inside one try; the first exception ends the build with -1. */
    method Build(elapsedNanos: int) returns (exitCode: int)
      requires libDir == Join(env.workingDirectory, "lib")
      modifies this
      ensures exitCode == BuildRun(env, elapsedNanos).exitCode
      ensures out == old(out) + BuildRun(env, elapsedNanos).output
    {
      ghost var before := out;
      var buildFile := BuildFile(env.workingFiles);
      var header := Header(env);
      out := out + header;
      var failure := Update();
      if failure.None? {
        var found := FindBuildClass(env, buildFile);
        if found.Failure? {
          failure := Some(found.error);
        } else {
          failure := env.create(found.value);
          if failure.None? {
            failure := env.runBuild(found.value);
          }
        }
      }
      assert failure == Stages(env).failure;
      ghost var printed := header + UpdateText(env);
      assert out == before + printed;
      if failure.None? {
        Report("SUCCESSFUL", elapsedNanos);
        ghost var report := ReportText("SUCCESSFUL", elapsedNanos);
        assert out == (before + printed) + report;
        assert BuildRun(env, elapsedNanos).output == printed + report;
        AppendAssociates(before, printed, report);
        return 0;
      }
      Report(FailureMessage(failure.value), elapsedNanos);
      ghost var report := ReportText(FailureMessage(failure.value), elapsedNanos);
      assert out == (before + printed) + report;
      assert BuildRun(env, elapsedNanos).output == printed + report;
      AppendAssociates(before, printed, report);
      return -1;
    }
  }
}
