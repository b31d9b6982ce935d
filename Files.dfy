/**
 * Paths as strings, with the two totallylazy Files helpers the core uses: `directory(parent, name)` and
 * `file(parent, name)`, and the `hasSuffix(suffix)` file-name test. Both helpers build a
 * java.io.File(parent, name); a join agrees with its path on a '/'-separated file system when the parent
 * is neither empty nor the root and has no trailing separator.
 */
module Files {
  import opened Strings

  /** new File(parent, child) for such a parent: the parent's path, a separator, then the child. */
  function Join(parent: string, child: string): (p: string)
    ensures |p| == |parent| + 1 + |child|
    ensures StartsWith(p, parent + "/") && EndsWith(p, "/" + child)
  {
    parent + "/" + child
  }

  /** A path lies under `root` when it is `root`, a separator, then a non-empty relative part. */
  predicate Under(p: string, root: string) {
    |p| > |root| + 1 && StartsWith(p, root + "/")
  }

  /** Joining under one parent is injective in the child: different children give different paths. */
  lemma JoinInjective(parent: string, a: string, b: string)
    ensures Join(parent, a) == Join(parent, b) <==> a == b
  {
    if Join(parent, a) == Join(parent, b) {
      assert a == Join(parent, a)[|parent| + 1..];
      assert b == Join(parent, b)[|parent| + 1..];
    }
  }

  /** Joining a non-empty child gives a path under the parent. */
  lemma JoinUnder(parent: string, child: string)
    requires |child| > 0
    ensures Under(Join(parent, child), parent)
  {
    assert Join(parent, child)[..|parent| + 1] == parent + "/";
  }

  /** totallylazy's hasSuffix: the file name ends with a dot and the suffix. */
  predicate HasSuffix(name: string, suffix: string) {
    EndsWith(name, "." + suffix)
  }
}
