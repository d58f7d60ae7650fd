/** The per-problem folder managers of the two backends. The Python
    manager reuses everything of the executable manager except folder
    creation and the program's file name, so both are one set of
    functions over a `Backend`. A problem's folder is the problem number
    itself, directly in the working directory. */
module Workspace {
  import opened Results
  import opened FileSystem
  import opened Storage

  /** Compiled C++ solutions (`<id>.exe`, started from a copy of the C++
      template) or Python scripts (`<id>.py`, started empty). */
  datatype Backend = Exe | Python

  function Extension(backend: Backend): string {
    match backend
    case Exe => ".exe"
    case Python => ".py"
  }

  /** `<id>.exe` or `<id>.py`: the problem number followed by the
      backend's extension. */
  function ProgramName(backend: Backend, id: string): (r: string)
    ensures |r| == |id| + 3 + (if backend == Exe then 1 else 0)
    ensures r[..|id|] == id && r[|id|] == '.'
    ensures backend == Exe <==> r[|id|..] == ".exe"
    ensures backend == Python <==> r[|id|..] == ".py"
  {
    id + Extension(backend)
  }

  function FolderPath(id: string): Path {
    [id]
  }

  /** Where the tester looks for the solution program. */
  function ProgramPath(backend: Backend, id: string): (r: Path)
    ensures Within(r, FolderPath(id)) && |r| == |FolderPath(id)| + 1
    ensures r[|r| - 1] == ProgramName(backend, id)
  {
    PathJoin(FolderPath(id), ProgramName(backend, id))
  }

  /** The file folder creation writes: the copied template `<id>.cpp` for
      the executable backend, the empty script `<id>.py` for Python. */
  function StarterPath(backend: Backend, id: string): (r: Path)
    ensures Within(r, FolderPath(id)) && |r| == |FolderPath(id)| + 1
    ensures |id| < |r[|r| - 1]| && r[|r| - 1][..|id|] == id
    ensures r[|r| - 1][|id|..] == if backend == Exe then ".cpp" else ".py"
  {
    match backend
    case Exe => PathJoin(FolderPath(id), id + ".cpp")
    case Python => PathJoin(FolderPath(id), ProgramName(Python, id))
  }

  function StarterContent(backend: Backend, template: string): Content {
    match backend
    case Exe => Text(template)
    case Python => Text("")
  }

  /** Creates the problem folder with its starter file and returns the
      new file system together with the folder's store. An existing
      directory is refused before anything happens; an existing regular
      file of that name makes `mkdir` refuse with the same error. */
  function CreateTestCaseStorage(fs: Fs, backend: Backend, template: string, id: string)
    : (r: Result<(Fs, TestCaseStorage), FsError>)
    ensures r.Failure? <==> FolderPath(id) in fs.dirs || FolderPath(id) in fs.files
    ensures r.Failure? ==> r.error == FileExists(FolderPath(id))
    ensures r.Success? ==> r.value.1.folder == FolderPath(id)
    ensures r.Success? ==> r.value.0.dirs == fs.dirs + {FolderPath(id)}
    ensures r.Success? ==> r.value.0.files.Keys == fs.files.Keys + {StarterPath(backend, id)}
    ensures r.Success? ==> r.value.0.files[StarterPath(backend, id)] == StarterContent(backend, template)
    ensures r.Success? ==> forall p :: p in fs.files && p != StarterPath(backend, id) ==>
      r.value.0.files[p] == fs.files[p]
  {
    var folder := FolderPath(id);
    if folder in fs.dirs || folder in fs.files then
      Failure(FileExists(folder))
    else
      var made := MakeDir(fs, folder);
      var fs' := WriteFile(made, StarterPath(backend, id), StarterContent(backend, template));
      Success((fs', TestCaseStorage(folder)))
  }

  /** The store of an existing problem folder. */
  function GetTestCaseStorage(fs: Fs, id: string): (r: Result<TestCaseStorage, FsError>)
    ensures r.Success? <==> FolderPath(id) in fs.dirs
    ensures r.Success? ==> r.value.folder == FolderPath(id)
    ensures r.Failure? ==> r.error == FileNotFound(FolderPath(id))
  {
    if FolderPath(id) !in fs.dirs then
      Failure(FileNotFound(FolderPath(id)))
    else
      Success(TestCaseStorage(FolderPath(id)))
  }

  /** Removes the problem folder and everything in it; does nothing when
      there is no such directory. */
  function DeleteTestCaseStorage(fs: Fs, id: string): (r: Fs)
    ensures FolderPath(id) !in r.dirs
    ensures FolderPath(id) !in fs.dirs ==> r == fs
    ensures FolderPath(id) in fs.dirs ==>
      forall p :: Within(p, FolderPath(id)) ==> p !in r.dirs && p !in r.files
    ensures forall p :: !Within(p, FolderPath(id)) ==>
      (p in r.dirs <==> p in fs.dirs) && (p in r.files <==> p in fs.files)
    ensures forall p :: p in r.files ==> p in fs.files && r.files[p] == fs.files[p]
  {
    if FolderPath(id) !in fs.dirs then
      fs
    else
      RemoveTree(fs, FolderPath(id))
  }

  // Path facts

  /** Python runs the starter script itself; the executable backend runs a
      binary that a separate build must produce. */
  lemma {:induction false} StarterIsProgram(backend: Backend, id: string)
    ensures StarterPath(backend, id) == ProgramPath(backend, id) <==> backend == Python
  {
    if backend == Exe {
      var a := StarterPath(Exe, id)[1];
      var b := ProgramPath(Exe, id)[1];
      assert a[|a| - 1] != b[|b| - 1];
    }
  }

  /** The storage file is neither the program nor the starter file. */
  lemma {:induction false} StorageFileDistinct(backend: Backend, id: string)
    ensures TestCaseStorage(FolderPath(id)).FilePath() != ProgramPath(backend, id)
    ensures TestCaseStorage(FolderPath(id)).FilePath() != StarterPath(backend, id)
  {
    var s := TestCaseStorage(FolderPath(id)).FilePath()[1];
    var p := ProgramPath(backend, id)[1];
    var t := StarterPath(backend, id)[1];
    assert s[|s| - 1] != p[|p| - 1];
    assert s[|s| - 1] != t[|t| - 1];
  }

  /** Different problems of one backend never share a program path. */
  lemma {:induction false} ProgramPathInjective(backend: Backend, id1: string, id2: string)
    ensures ProgramPath(backend, id1) == ProgramPath(backend, id2) <==> id1 == id2
  {
    if ProgramPath(backend, id1) == ProgramPath(backend, id2) {
      assert ProgramPath(backend, id1)[0] == id1;
    }
  }

  /** The program lives in the problem folder, and the two backends never
      look for the same program. */
  lemma {:induction false} ProgramInFolder(backend: Backend, id: string)
    ensures Within(ProgramPath(backend, id), FolderPath(id))
    ensures ProgramPath(Exe, id) != ProgramPath(Python, id)
  {
    var e := ProgramPath(Exe, id)[1];
    var p := ProgramPath(Python, id)[1];
    assert e[|e| - 1] != p[|p| - 1];
  }

  // Lifecycle

  /** Creating a folder keeps the file system well formed. */
  lemma {:induction false} CreateWf(fs: Fs, backend: Backend, template: string, id: string)
    requires Wf(fs)
    requires CreateTestCaseStorage(fs, backend, template, id).Success?
    ensures Wf(CreateTestCaseStorage(fs, backend, template, id).value.0)
  {
    var folder := FolderPath(id);
    MakeDirWf(fs, folder);
    var made := MakeDir(fs, folder);
    var starter := StarterPath(backend, id);
    assert starter[..1] == folder;
    assert starter !in fs.dirs;
    WriteFileWf(made, starter, StarterContent(backend, template));
  }

  /** Deleting keeps the file system well formed. */
  lemma {:induction false} DeleteWf(fs: Fs, id: string)
    requires Wf(fs)
    ensures Wf(DeleteTestCaseStorage(fs, id))
  {
    if FolderPath(id) in fs.dirs {
      RemoveTreeWf(fs, FolderPath(id));
    }
  }

  /** Deleting twice is deleting once. */
  lemma {:induction false} DeleteIdempotent(fs: Fs, id: string)
    ensures DeleteTestCaseStorage(DeleteTestCaseStorage(fs, id), id) == DeleteTestCaseStorage(fs, id)
  {
  }

  /** Deleting a freshly created folder gives back the file system as it
      was before. */
  lemma {:induction false} CreateThenDelete(fs: Fs, backend: Backend, template: string, id: string)
    requires Wf(fs)
    requires CreateTestCaseStorage(fs, backend, template, id).Success?
    ensures DeleteTestCaseStorage(CreateTestCaseStorage(fs, backend, template, id).value.0, id) == fs
  {
    var folder := FolderPath(id);
    NothingWithinAbsent(fs, folder);
    var created := CreateTestCaseStorage(fs, backend, template, id).value.0;
    var deleted := DeleteTestCaseStorage(created, id);
    assert Within(StarterPath(backend, id), folder);
    assert deleted.dirs == fs.dirs;
    assert deleted.files == fs.files;
  }

  /** A created folder can be opened; a deleted one cannot. */
  lemma {:induction false} GetAfterCreateAndDelete(fs: Fs, backend: Backend, template: string, id: string)
    requires CreateTestCaseStorage(fs, backend, template, id).Success?
    ensures GetTestCaseStorage(CreateTestCaseStorage(fs, backend, template, id).value.0, id)
      == Success(CreateTestCaseStorage(fs, backend, template, id).value.1)
    ensures GetTestCaseStorage(DeleteTestCaseStorage(CreateTestCaseStorage(fs, backend, template, id).value.0, id), id)
      == Failure(FileNotFound(FolderPath(id)))
  {
  }

  /** After a delete, the same folder can be created again unless a regular
      file of that name is in the way. */
  lemma {:induction false} CreateAfterDelete(fs: Fs, backend: Backend, template: string, id: string)
    requires Wf(fs)
    ensures CreateTestCaseStorage(DeleteTestCaseStorage(fs, id), backend, template, id).Success?
      <==> FolderPath(id) !in fs.files
  {
  }

  /** A fresh folder has no stored test cases yet: loading reports a
      missing file until they are saved. */
  lemma {:induction false} FreshStoreIsEmpty(fs: Fs, backend: Backend, template: string, id: string)
    requires Wf(fs)
    requires CreateTestCaseStorage(fs, backend, template, id).Success?
    ensures
      var (fs', st) := CreateTestCaseStorage(fs, backend, template, id).value;
      GetTestCases(fs', st) == Failure(FileNotFound(st.FilePath()))
  {
    var folder := FolderPath(id);
    NothingWithinAbsent(fs, folder);
    var st := TestCaseStorage(folder);
    assert Within(st.FilePath(), folder);
    StorageFileDistinct(backend, id);
  }
}
