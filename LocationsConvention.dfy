/**
 * LocationsConvention: the project's directory and artifact layout, every location a path join
 * under the working directory. The versioned artifact name (from IdentifiersConvention) is a field.
 */
module LocationsConvention {
  import opened Strings
  import opened Files

  datatype Locations = Locations(workingDirectory: string, versionedArtifact: string) {

    function RootDir(): (p: string)
      ensures p == workingDirectory
    {
      workingDirectory
    }

    function ArtifactsDir(): string { Join(RootDir(), "build/artifacts") }
    function SrcDir(): string { Join(RootDir(), "src") }
    function TestDir(): string { Join(RootDir(), "test") }
    function LibDir(): string { Join(RootDir(), "lib") }

    function MainJarName(): string { versionedArtifact + ".jar" }
    function SourcesJarName(): string { versionedArtifact + "-sources.jar" }
    function TestJarName(): string { versionedArtifact + "-tests.jar" }
    function TestSourcesJarName(): string { versionedArtifact + "-test-sources.jar" }

    function MainJar(): string { Join(ArtifactsDir(), MainJarName()) }
    function SourcesJar(): string { Join(ArtifactsDir(), SourcesJarName()) }
    function TestJar(): string { Join(ArtifactsDir(), TestJarName()) }
    function TestSourcesJar(): string { Join(ArtifactsDir(), TestSourcesJarName()) }

    /** The four directories are build/artifacts, src, test and lib under the root, and pairwise distinct. */
    lemma DirectoriesLayout()
      ensures ArtifactsDir() == RootDir() + "/build/artifacts"
      ensures SrcDir() == RootDir() + "/src" && TestDir() == RootDir() + "/test" && LibDir() == RootDir() + "/lib"
      ensures Under(ArtifactsDir(), RootDir()) && Under(SrcDir(), RootDir())
      ensures Under(TestDir(), RootDir()) && Under(LibDir(), RootDir())
      ensures ArtifactsDir() != SrcDir() && ArtifactsDir() != TestDir() && ArtifactsDir() != LibDir()
      ensures SrcDir() != TestDir() && SrcDir() != LibDir() && TestDir() != LibDir()
    {
      var r := RootDir();
      JoinUnder(r, "build/artifacts");
      JoinUnder(r, "src");
      JoinUnder(r, "test");
      JoinUnder(r, "lib");
      JoinInjective(r, "build/artifacts", "src");
      JoinInjective(r, "build/artifacts", "test");
      JoinInjective(r, "build/artifacts", "lib");
      JoinInjective(r, "src", "test");
      JoinInjective(r, "src", "lib");
      JoinInjective(r, "test", "lib");
    }

    /** Each jar is its file name joined to the artifacts directory; the suffixes are .jar, -sources.jar, -tests.jar, -test-sources.jar. */
    lemma JarsLayout()
      ensures MainJar() == ArtifactsDir() + "/" + versionedArtifact + ".jar"
      ensures SourcesJar() == ArtifactsDir() + "/" + versionedArtifact + "-sources.jar"
      ensures TestJar() == ArtifactsDir() + "/" + versionedArtifact + "-tests.jar"
      ensures TestSourcesJar() == ArtifactsDir() + "/" + versionedArtifact + "-test-sources.jar"
      ensures Under(MainJar(), ArtifactsDir()) && Under(SourcesJar(), ArtifactsDir())
      ensures Under(TestJar(), ArtifactsDir()) && Under(TestSourcesJar(), ArtifactsDir())
    {
      var a := ArtifactsDir();
      assert Join(a, MainJarName()) == a + "/" + versionedArtifact + ".jar";
      assert Join(a, SourcesJarName()) == a + "/" + versionedArtifact + "-sources.jar";
      assert Join(a, TestJarName()) == a + "/" + versionedArtifact + "-tests.jar";
      assert Join(a, TestSourcesJarName()) == a + "/" + versionedArtifact + "-test-sources.jar";
      JoinUnder(a, MainJarName());
      JoinUnder(a, SourcesJarName());
      JoinUnder(a, TestJarName());
      JoinUnder(a, TestSourcesJarName());
    }

    /** Whatever the versioned artifact name, the four jar names, and so the four jars, are pairwise distinct. */
    lemma JarsDistinct()
      ensures MainJarName() != SourcesJarName() && MainJarName() != TestJarName() && MainJarName() != TestSourcesJarName()
      ensures SourcesJarName() != TestJarName() && SourcesJarName() != TestSourcesJarName() && TestJarName() != TestSourcesJarName()
      ensures MainJar() != SourcesJar() && MainJar() != TestJar() && MainJar() != TestSourcesJar()
      ensures SourcesJar() != TestJar() && SourcesJar() != TestSourcesJar() && TestJar() != TestSourcesJar()
    {
      var a := ArtifactsDir();
      JoinInjective(a, MainJarName(), SourcesJarName());
      JoinInjective(a, MainJarName(), TestJarName());
      JoinInjective(a, MainJarName(), TestSourcesJarName());
      JoinInjective(a, SourcesJarName(), TestJarName());
      JoinInjective(a, SourcesJarName(), TestSourcesJarName());
      JoinInjective(a, TestJarName(), TestSourcesJarName());
    }
  }
}
