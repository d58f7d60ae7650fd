/** An immutable picture of the part of the file system the workspace
    manager touches. Paths are sequences of components relative to the
    working directory; the working directory itself is the empty path and
    is always a directory. `os.path.join(a, b)` appends one component. */
module FileSystem {

  type Path = seq<string>

  /** A test case: the sample input and the expected output. */
  type TestCase = (string, string)

  /** What a regular file holds: a list of test cases as the storage file
      writes it, or any other text (a template, a source file, a binary). */
  datatype Content = Text(text: string) | CaseList(cases: seq<TestCase>)

  datatype Fs = Fs(dirs: set<Path>, files: map<Path, Content>)

  /** The exceptions the file operations raise, with the offending path.
      `Malformed` stands for the decoding error of a storage file whose
      contents are not a list of pairs. */
  datatype FsError =
    | FileExists(path: Path)
    | FileNotFound(path: Path)
    | IsADirectory(path: Path)
    | Malformed(path: Path)

  function PathJoin(dir: Path, name: string): Path {
    dir + [name]
  }

  predicate IsDir(fs: Fs, p: Path) {
    p == [] || p in fs.dirs
  }

  predicate IsFile(fs: Fs, p: Path) {
    p in fs.files
  }

  /** `p` is `d` itself or lies somewhere below it. */
  predicate Within(p: Path, d: Path) {
    |d| <= |p| && p[..|d|] == d
  }

  /** Well-formedness: no path is both a directory and a file, the working
      directory is not an entry, and every proper ancestor of an entry is a
      directory. */
  predicate Wf(fs: Fs) {
    && [] !in fs.dirs
    && [] !in fs.files
    && (forall p :: p in fs.dirs ==> p !in fs.files)
    && (forall p, k :: p in fs.dirs && 0 < k < |p| ==> p[..k] in fs.dirs)
    && (forall p, k :: p in fs.files && 0 < k < |p| ==> p[..k] in fs.dirs)
  }

  /** In a well-formed file system, nothing lies below a path that is not
      a directory. */
  lemma {:induction false} NothingWithinAbsent(fs: Fs, d: Path)
    requires Wf(fs)
    requires d != [] && d !in fs.dirs && d !in fs.files
    ensures forall p :: p in fs.dirs ==> !Within(p, d)
    ensures forall p :: p in fs.files ==> !Within(p, d)
  {
    forall p | p in fs.dirs
      ensures !Within(p, d)
    {
      if |d| < |p| {
        assert p[..|d|] in fs.dirs;
      } else {
        assert p[..|p|] == p;
      }
    }
    forall p | p in fs.files
      ensures !Within(p, d)
    {
      if |d| < |p| {
        assert p[..|d|] in fs.dirs;
      } else {
        assert p[..|p|] == p;
      }
    }
  }

  /** `mkdir`: a new directory below an existing one. */
  function MakeDir(fs: Fs, d: Path): Fs {
    Fs(fs.dirs + {d}, fs.files)
  }

  /** Opening a file for writing and writing `c` into it. */
  function WriteFile(fs: Fs, p: Path, c: Content): Fs {
    Fs(fs.dirs, fs.files[p := c])
  }

  /** `rmtree`: removes `d` and everything below it. */
  function RemoveTree(fs: Fs, d: Path): Fs {
    Fs(set p | p in fs.dirs && !Within(p, d),
       map p | p in fs.files && !Within(p, d) :: fs.files[p])
  }

  lemma {:induction false} MakeDirWf(fs: Fs, d: Path)
    requires Wf(fs) && d != [] && d !in fs.files
    requires IsDir(fs, d[..|d| - 1])
    ensures Wf(MakeDir(fs, d))
  {
    var fs' := MakeDir(fs, d);
    forall p, k | p in fs'.dirs && 0 < k < |p|
      ensures p[..k] in fs'.dirs
    {
      if p == d {
        assert d[..k] == d[..|d| - 1][..k];
      }
    }
  }

  lemma {:induction false} WriteFileWf(fs: Fs, p: Path, c: Content)
    requires Wf(fs) && p != [] && p !in fs.dirs
    requires IsDir(fs, p[..|p| - 1])
    ensures Wf(WriteFile(fs, p, c))
  {
    var fs' := WriteFile(fs, p, c);
    forall q, k | q in fs'.files && 0 < k < |q|
      ensures q[..k] in fs'.dirs
    {
      if q == p {
        assert p[..k] == p[..|p| - 1][..k];
      }
    }
  }

  /** Anything below an ancestor of `p` inside `d` is inside `d` too. */
  lemma {:induction false} WithinAncestor(p: Path, k: nat, d: Path)
    requires k <= |p|
    ensures Within(p[..k], d) ==> Within(p, d)
  {
    if Within(p[..k], d) {
      assert p[..|d|] == p[..k][..|d|];
    }
  }

  lemma {:induction false} RemoveTreeWf(fs: Fs, d: Path)
    requires Wf(fs)
    ensures Wf(RemoveTree(fs, d))
  {
    var fs' := RemoveTree(fs, d);
    forall p, k | p in fs'.dirs && 0 < k < |p|
      ensures p[..k] in fs'.dirs
    {
      WithinAncestor(p, k, d);
    }
    forall p, k | p in fs'.files && 0 < k < |p|
      ensures p[..k] in fs'.dirs
    {
      WithinAncestor(p, k, d);
    }
  }
}
