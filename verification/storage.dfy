/** The per-problem test-case store: one file, `testCases.txt`, inside the
    problem's folder, holding the list of (input, expected output) pairs. */
module Storage {
  import opened Results
  import opened FileSystem

  const StorageFileName := "testCases.txt"

  /** A handle on the store of one problem folder. */
  datatype TestCaseStorage = TestCaseStorage(folder: Path) {
    function FilePath(): Path {
      PathJoin(folder, StorageFileName)
    }
  }

  /** Writes the cases to the storage file, replacing what was there.
      Opening for writing fails when a directory sits at the file's path or
      when the folder is not a directory. */
  function Save(fs: Fs, st: TestCaseStorage, cases: seq<TestCase>): (r: Result<Fs, FsError>)
    ensures r.Failure? <==> st.FilePath() in fs.dirs || !IsDir(fs, st.folder)
    ensures r.Failure? ==> r.error.path == st.FilePath()
    ensures r.Success? ==> r.value.dirs == fs.dirs
    ensures r.Success? ==> r.value.files.Keys == fs.files.Keys + {st.FilePath()}
    ensures r.Success? ==> forall p :: p in fs.files && p != st.FilePath() ==> r.value.files[p] == fs.files[p]
  {
    var p := st.FilePath();
    if p in fs.dirs then
      Failure(IsADirectory(p))
    else if !IsDir(fs, st.folder) then
      Failure(FileNotFound(p))
    else
      Success(WriteFile(fs, p, CaseList(cases)))
  }

  /** Reads the cases back. Opening for reading fails on a directory or a
      missing file; a file that does not hold a list of pairs fails to
      decode. */
  function GetTestCases(fs: Fs, st: TestCaseStorage): (r: Result<seq<TestCase>, FsError>)
    ensures r.Success? <==>
      st.FilePath() !in fs.dirs && st.FilePath() in fs.files && fs.files[st.FilePath()].CaseList?
    ensures r.Success? ==> r.value == fs.files[st.FilePath()].cases
    ensures r.Failure? ==> r.error.path == st.FilePath()
    ensures r.Failure? && r.error.FileNotFound? <==> st.FilePath() !in fs.dirs && st.FilePath() !in fs.files
  {
    var p := st.FilePath();
    if p in fs.dirs then
      Failure(IsADirectory(p))
    else if p !in fs.files then
      Failure(FileNotFound(p))
    else
      match fs.files[p]
      case Text(_) => Failure(Malformed(p))
      case CaseList(cases) => Success(cases)
  }

  /** Saving then loading gives back the same pairs, in the same order. */
  lemma {:induction false} SaveLoad(fs: Fs, st: TestCaseStorage, cases: seq<TestCase>)
    requires Save(fs, st, cases).Success?
    ensures GetTestCases(Save(fs, st, cases).value, st) == Success(cases)
  {
  }

  /** A second save replaces the first. */
  lemma {:induction false} SaveTwice(fs: Fs, st: TestCaseStorage, first: seq<TestCase>, second: seq<TestCase>)
    requires Save(fs, st, first).Success?
    ensures Save(Save(fs, st, first).value, st, second).Success?
    ensures GetTestCases(Save(Save(fs, st, first).value, st, second).value, st) == Success(second)
  {
  }

  /** Saving keeps the file system well formed. */
  lemma {:induction false} SaveWf(fs: Fs, st: TestCaseStorage, cases: seq<TestCase>)
    requires Wf(fs) && Save(fs, st, cases).Success?
    ensures Wf(Save(fs, st, cases).value)
  {
    var p := st.FilePath();
    assert p[..|p| - 1] == st.folder;
    WriteFileWf(fs, p, CaseList(cases));
  }

  /** Saving into one store leaves every other store of a different folder
      as it was. */
  lemma {:induction false} SaveIsolated(fs: Fs, st: TestCaseStorage, other: TestCaseStorage, cases: seq<TestCase>)
    requires Save(fs, st, cases).Success? && other.folder != st.folder
    ensures GetTestCases(Save(fs, st, cases).value, other) == GetTestCases(fs, other)
  {
    assert other.FilePath()[..|other.folder|] == other.folder;
    assert st.FilePath()[..|st.folder|] == st.folder;
  }

  /** The storage file lies directly in its folder, and different folders
      have different storage files. */
  lemma {:induction false} FilePathInFolder(st: TestCaseStorage, other: TestCaseStorage)
    ensures Within(st.FilePath(), st.folder) && |st.FilePath()| == |st.folder| + 1
    ensures st.FilePath()[|st.folder|] == StorageFileName
    ensures st.FilePath() == other.FilePath() <==> st.folder == other.folder
  {
    if st.FilePath() == other.FilePath() {
      assert st.folder == st.FilePath()[..|st.FilePath()| - 1];
      assert other.folder == other.FilePath()[..|other.FilePath()| - 1];
    }
  }
}
