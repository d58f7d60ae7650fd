# BeakJunHelper tester, in Dafny

A model of the test execution engine of BeakJunHelper (`Tester.py`). The
engine is a helper for practising judge problems. It keeps one folder per
problem, stores the problem's sample cases in that folder, and checks a
solution program against them:

- **Output normaliser** `StripNewline`. It replaces CR LF pairs by LF,
  splits on LF, drops the segments that are exactly empty, strips every
  remaining segment and joins them back with LF.
- **Test-case store** `TestCaseStorage`. It keeps one file,
  `testCases.txt`, in the problem folder and saves and loads the list of
  (input, expected output) pairs.
- **Folder managers** of the two backends. Compiled C++ programs
  (`<id>.exe`, started from a copy of the C++ template `<id>.cpp`) and
  Python scripts (`<id>.py`, started empty). Each creates, opens and
  deletes the folder `<id>` in the working directory.
- **Fail-fast tester** of the two backends. It normalises each case's
  input, runs the program on it, normalises the output and the expected
  output, and returns the first triple (input, output, expected) that
  differs. If every case agrees it returns nothing. A missing program is
  refused before any case runs.

Modules, one per file:

| file | module | contents |
|---|---|---|
| `results.dfy` | `Results` | `Option` and `Result` (the Python exceptions become `Failure` values) |
| `text.dfy` | `Text` | the ASCII whitespace `strip()` removes, `Trim`, `ReplaceCrlf`, `Split` / `Join` |
| `normalizer.dfy` | `Normalizer` | `StripNewline`, its line structure, its (non-)idempotence, worked examples |
| `filesystem.dfy` | `FileSystem` | an immutable file system: directories, files, well-formedness, `mkdir` / write / `rmtree` |
| `storage.dfy` | `Storage` | `TestCaseStorage`: `Save`, `GetTestCases` |
| `workspace.dfy` | `Workspace` | `Backend = Exe \| Python`, program and starter paths, create / get / delete |
| `tester.dfy` | `Tester` | the fail-fast loop, `Test`, the `Test` command's lookups, scenarios and examples |

### How the model is set up

- **The program.** The solution program is a parameter `run: string ->
  string`, from the text written to standard input to the text printed.
  Running it gives `Trim(run(input))`, as `RunProgram` strips the decoded
  output.
- **The trace.** The tester also returns `invoked`, the inputs the program
  was started on, in order. That is how "later cases never run" becomes a
  statement about the result.
- **The loop.** `Loop` is written once over an arbitrary per-case check,
  and its properties are proved there. `RunCases` instantiates it with the
  check that runs the program.
- **The file system.** It is the set of directories and the map of files,
  relative to the working directory.
  - `os.path.abspath` is the identity.
  - `os.path.join(a, b)` appends one path component.
  - A file holds either some text or a list of cases. The list of cases
    stands for the JSON the store writes.
- **Whitespace.** It is the ASCII part of the set Python's `str.strip()`
  removes: tab, line feed, vertical tab, form feed, carriage return, the
  four information separators U+001C to U+001F, and space.

### Two details of the code the model keeps

- **Blank lines.** `Tester.py:17-18` filters the empty segments *before*
  stripping. So a segment made only of blanks survives as an empty line
  (`"a\n \nb"` becomes `"a\n\nb"`), while an empty segment disappears
  (`"a\n\nb"` becomes `"a\nb"`).
  - The model follows the code.
  - `Normalizer.NormalizeBlankFree` is the normalisation that strips
    first and then drops the lines left empty.
  - `Normalizer.StripNewlineTwice` proves that it equals two passes of
    the code's normaliser, and `Normalizer.BlankFreeIsNormal` that it is
    a fixed point of that normaliser.
  - `Normalizer.IdempotentIff` proves that one pass is a fixed point
    exactly when the output has no empty line.
- **Folder names.** The folder manager tests in `Test/UnitTest.py:136`
  and `:152` look for the folders `<id>_cpp` and `<id>_py`. The code
  (`Tester.py:82-92`, `:119-131`) creates the folder `<id>` for both
  backends. The model uses `<id>`.

## Model

| member | source | states |
|---|---|---|
| Text.Trim | Tester.py:18 | `strip()` gives a text with no whitespace (the ten ASCII whitespace characters, U+001C to U+001F included) at either end, made of characters of the input and no longer than it; it is empty exactly when the input is all whitespace, and a text already trimmed is returned unchanged |
| Text.TrimRemovesOnlyEdges | Tester.py:18 | `strip()` removes whitespace at the two ends and nothing else: the result is a slice of the input with only whitespace before and after it |
| Text.TrimPadded | Tester.py:18 | stripping a trimmed text surrounded by whitespace gives that text back |
| Text.ReplaceCrlf | Tester.py:16 | the replacement never lengthens the text and leaves a text without CR LF pairs unchanged |
| Text.ReplaceCrlfRemovesOnlyCr | Tester.py:16 | the replacement removes carriage returns and nothing else: every other character, line feeds included, occurs as often as before, and each character dropped is a carriage return |
| Text.Split | Tester.py:17 | splitting on line feeds gives at least one segment, no segment holds a line feed, and joining the segments with line feeds gives the text back |
| Text.SplitJoin | Tester.py:17-19 | splitting undoes joining for a non-empty list of lines without line feeds (the two are inverse both ways together with `Split`'s own contract) |
| Text.SplitReplaceCrlf | Tester.py:16-17 | replacing CR LF keeps the line structure: as many segments as before, every segment but the last loses one trailing carriage return if it had one, the last is unchanged |
| Text.JoinTrimmedNoCrlf | Tester.py:19 | joining trimmed lines without line feeds never produces a CR LF pair |
| Normalizer.DropEmpty | Tester.py:17 | `filter(None, …)` keeps exactly the non-empty segments, shrinks the list when an empty one is present and is the identity otherwise |
| Normalizer.DropEmptyCounts | Tester.py:17 | every non-empty segment is kept as many times as it occurs, and no empty one |
| Normalizer.DropEmptyAppend | Tester.py:17 | the filter keeps the order of the segments: filtering a concatenation concatenates the filtered parts |
| Normalizer.TrimLinesOfTrimmed | Tester.py:18 | mapping `strip()` over lines that are already trimmed changes nothing |
| Normalizer.StripNewline | Tester.py:15-19 | the normalised text has no CR LF pair and every one of its lines has no leading or trailing whitespace |
| Normalizer.OutputLines | Tester.py:15-19 | the output's lines are exactly the stripped non-empty segments, in order; with no non-empty segment the output is empty |
| Normalizer.WhitespaceLineSurvives | Tester.py:17-18 | a segment made only of whitespace is not filtered and becomes an empty line of the output |
| Normalizer.EmptyLineComesFromWhitespace | Tester.py:17-18 | an empty line in a non-empty output always comes from a whitespace-only segment |
| Normalizer.StripNewlineOfNormal | Tester.py:15-19 | on an already normalised text the normaliser only removes empty lines |
| Normalizer.IdempotentIff | Tester.py:15-19 | normalising the output again changes nothing exactly when the output is empty or has no empty line |
| Normalizer.StripNewlineTwice | Tester.py:15-19 | two passes equal the normalisation that drops lines empty after trimming |
| Normalizer.BlankFreeHasNoEmptyLine | Tester.py:15-19 | stripping first and then dropping the empty lines leaves no empty line in a non-empty result |
| Normalizer.BlankFreeIsNormal | Tester.py:15-19 | that strip-then-filter normalisation is a fixed point of `StripNewline` and of itself |
| Normalizer.UnitTestExample | Test/UnitTest.py:187-191 | `"1 \r\n 2     \r\n     3      \n"` normalises to `"1\n2\n3"` |
| Normalizer.WhitespaceLineExample | Tester.py:17-18 | `"a\n \nb"` normalises to `"a\n\nb"`: the blank segment is kept as an empty line |
| Normalizer.BlankLineExample | Tester.py:17 | `"a\n\nb"` normalises to `"a\nb"`: the empty segment is dropped |
| Normalizer.NotIdempotentExample | Tester.py:15-19 | a second pass over `"a\n \nb"` changes the result again |
| Normalizer.CrlfAndBlankLineEquivalences | Tester.py:15-19 | `"1 \r\n 2 \r\n"` and `"1\n2"` compare equal, as do `"a\n\nb\n"` and `"a\nb"` |
| Normalizer.MixedEndingsExample | Tester.py:16-19 | `"1\r\n2\r\n3"` and `"1\n2\n3"` both normalise to `"1\n2\n3"` |
| FileSystem.RemoveTreeWf | Tester.py:98 | `rmtree` keeps the file system well formed: no path is both a file and a directory, and every ancestor of an entry is a directory |
| FileSystem.MakeDirWf | Tester.py:85 | `mkdir` of a new path whose parent is a directory keeps the file system well formed |
| FileSystem.WriteFileWf | Tester.py:68 | opening for writing a path that is not a directory, in an existing directory, keeps the file system well formed |
| Storage.Save | Tester.py:65-69 | writing fails exactly when a directory sits at the file's path or the folder is not a directory, naming the file; on success directories are unchanged, the file is added or replaced, and every other file keeps its contents |
| Storage.GetTestCases | Tester.py:71-77 | loading succeeds exactly when the file exists and holds a list of pairs, and then returns exactly those pairs; a missing file is reported as not found, naming the file |
| Storage.SaveLoad | Tester.py:65-77 | loading after saving gives back the same pairs in the same order |
| Storage.SaveTwice | Tester.py:68-69 | a second save succeeds and replaces the first (the file is opened for writing, which truncates it) |
| Storage.SaveWf | Tester.py:65-69 | saving keeps the file system well formed |
| Storage.SaveIsolated | Tester.py:62-63 | saving into one folder's store leaves the store of every other folder as it was |
| Storage.FilePathInFolder | Tester.py:62-63 | the store's file `testCases.txt` lies directly in the problem folder, and two stores share a file exactly when they share a folder |
| Workspace.CreateTestCaseStorage | Tester.py:80-92 | creation fails with "file exists" exactly when a directory or a file named `<id>` is present; otherwise it adds the directory `<id>` and the starter file (the template copy `<id>.cpp`, or the empty `<id>.py` for Python), leaves every other file unchanged, and returns the store of `<id>` |
| Workspace.StarterIsProgram | Tester.py:119-134 | the Python starter file is the program itself; the executable backend's starter is not its program |
| Workspace.ProgramName | Tester.py:112-113 | the program name is the problem id, a dot, then `exe` for the executable backend or `py` for Python (the override at `Tester.py:133-134`) |
| Workspace.ProgramPath | Tester.py:106-110 | the program lies directly in the problem folder under the program name |
| Workspace.StarterPath | Tester.py:87-89 | the starter file lies directly in the problem folder and is `<id>.cpp` for the executable backend, `<id>.py` for Python (`Tester.py:125-126`) |
| Workspace.GetTestCaseStorage | Tester.py:100-104 | opening succeeds exactly when the directory `<id>` exists and then returns its store; otherwise it reports `<id>` not found |
| Workspace.DeleteTestCaseStorage | Tester.py:94-98 | deleting removes `<id>` and everything below it, does nothing when there is no such directory, and changes nothing outside `<id>` |
| Workspace.DeleteIdempotent | Tester.py:94-98 | deleting twice is deleting once |
| Workspace.ProgramPathInjective | Tester.py:106-113 | two problems of one backend share a program path exactly when they are the same problem |
| Workspace.ProgramInFolder | Tester.py:106-134 | the program lies in the problem folder, and the two backends never look for the same program |
| Workspace.StorageFileDistinct | Tester.py:63 | the store's file is neither the program nor the starter file |
| Workspace.CreateWf | Tester.py:80-92 | creation keeps the file system well formed |
| Workspace.DeleteWf | Tester.py:94-98 | deletion keeps the file system well formed |
| Workspace.CreateThenDelete | Test/UnitTest.py:134-143 | deleting a freshly created folder gives back the file system as it was before |
| Workspace.GetAfterCreateAndDelete | Test/UnitTest.py:150-159 | a created folder can be opened and gives the store creation returned; once that folder is deleted, opening it reports the folder not found |
| Workspace.CreateAfterDelete | Tester.py:231-234 | after a delete the same folder can be created again, unless a regular file of that name is in the way |
| Workspace.FreshStoreIsEmpty | Tester.py:85-92 | a fresh folder holds no stored cases: loading reports the store file missing until the cases are saved |
| Tester.RunProgram | Tester.py:155-162 | the program's output as the tester sees it has no surrounding whitespace, is made of characters the program printed, and is empty exactly when the program printed only whitespace (same at `Tester.py:181-188`) |
| Tester.Observe | Tester.py:145-147 | the reported input and expected output are the case's texts normalised, no CR LF pair is left in any of the three, and the program runs on the normalised input rather than on the stored one |
| Tester.ObserveDependsOnNormalForms | Tester.py:145-150 | two cases are observed alike exactly when their inputs normalise alike and their expected outputs normalise alike |
| Tester.Loop | Tester.py:144-152 | the loop checks at most every case; with no mismatch it checked them all; a reported mismatch disagrees and belongs to the last case checked |
| Tester.LoopPass | Tester.py:144-152 | no mismatch is reported exactly when every case agrees |
| Tester.LoopFirstFailure | Tester.py:144-150 | a reported mismatch is the first disagreeing case, every earlier case agreed |
| Tester.LoopReportsFirst | Tester.py:144-150 | when case `k` is the first one whose output differs, the loop reports that case's triple after `k + 1` checks |
| Tester.LoopAfterPasses | Tester.py:144-152 | a passing prefix is checked in full, and the cases after it decide the answer |
| Tester.RunCasesPass | Tester.py:144-152 | the program is started on the normalised inputs of a prefix of the cases, in order; there is no mismatch exactly when every case passes, and then every case was run |
| Tester.RunCasesFirstFailure | Tester.py:144-150 | a mismatch is the triple of the first failing case; every earlier case passed and the failing case was the last one run |
| Tester.RunCasesStopsAtFailure | Tester.py:149-150 | once a case fails, the cases after it change nothing |
| Tester.RunCasesDependsOnInvoked | Tester.py:145-147 | the answer depends on the program only through the inputs it was started on |
| Tester.Test | Tester.py:137-152 | the tester fails with "not found", naming the program path, exactly when no regular file is there, before any case runs; otherwise it reports no mismatch exactly when every case passes |
| Tester.TestReportsFirst | Tester.py:165-178 | on an existing program, when case `k` is the first failing one, the tester returns that case's (input, output, expected) triple after running the program `k + 1` times |
| Tester.TestProblem | Tester.py:247-262 | the `Test` command reports a missing folder first, then the error loading the cases raised, then a missing program; it succeeds exactly when all three are present, and then it is the tester's run over the loaded cases |
| Tester.Initialise | Tester.py:220-244 | the `Init` command succeeds exactly when the folder is free and keeps the file system well formed; the folder and its starter file exist afterwards; loading returns the fetched cases, or reports `testCases.txt` missing when the fetch raised |
| Tester.FailedFetchLeavesNoCases | Tester.py:238-242 | when the fetch raises after the folder was created, the `Test` command on that problem reports `testCases.txt` not found |
| Tester.PythonTestableAfterInit | Tester.py:119-131 | right after initialisation the `Test` command on a Python problem runs the saved cases |
| Tester.ExeNeedsBuild | Tester.py:137-142 | a freshly initialised executable problem is refused for want of `<id>.exe`; once a build writes it, the saved cases run |
| Tester.DoublingPasses | Test/UnitTest.py:167-170 | the doubling program passes the cases `1→2`, `2→4`, `3→6` |
| Tester.DoublingFailsLast | Test/UnitTest.py:172-178 | with `3→7` as the last case the tester reports `("3", "6", "7")` |
| Tester.FailFastExample | Tester.py:149-150 | when the second case already fails, the third input never reaches the program: only `"1"` and `"2"` are run |
| Tester.MixedLineEndingsPass | Tester.py:145-149 | a program printing `"1\r\n2\r\n3\r\n"` passes against the expected output `"1\n2\n3"` |

## Left out

- **`BJFetcher`** (`Tester.py:22-58`). Downloading and parsing the problem
  page is network I/O. The outcome of the fetch is a parameter of
  `Tester.Initialise`: the fetched cases, or `None` when `Fetch` raised.
  Which pages make it raise is not modelled.
- **Running a process** (`RunProgram`, `Tester.py:154-162` and
  `:180-188`). Starting a process, UTF-8 encoding and decoding, and the
  shape of the `python "<path>"` command are left out. The program is the
  function `run`; only the final `strip()` of its output is modelled.
- **JSON.** `json.dump` / `json.load` and their text format are left out.
  A file holds either a list of cases or some other text, and reading
  other text as a case list is the decoding error `Malformed`. Text that
  happens to be valid JSON for a list of pairs is not modelled.
- **`os.path.abspath`.** The file system is rooted at the working
  directory, so the absolute path of `<id>` is `<id>`.
- **The template.** Its contents are a parameter. A missing
  `CPPTemplate.cpp` (which would make `shutil.copyfile` raise after the
  folder exists) is not modelled.
- **Failure after `mkdir`.** Creation either fails before anything
  changes or completes.
- **Problem ids** are single plain path components. Ids such as `""`,
  `"."`, `".."` or names containing `/` are not modelled.
- **`NotADirectoryError`.** When a path component is a regular file,
  opening a file below it raises `NotADirectoryError`; the model reports
  it as `FileNotFound`.
- **The `Init` command's prompt loop** (`Tester.py:224-236`). It asks on
  the console whether to delete and retry. Only the path that succeeds is
  modelled, by `Tester.Initialise`; `Workspace.CreateAfterDelete` states
  what the retry relies on.
- **Printing.** The `Test` command's messages, and the
  `Web`/`Folder`/`main` entry points, are console and browser I/O.
  `Tester.TestProblem` models the part of the `Test` command that decides
  what is printed.
- **The factories** (`Tester.py:191-217`). They only pair a folder manager
  with a tester; that pairing is the `Backend` parameter.
- **`Text.Trim`** strips the ten ASCII whitespace characters only.
  Python's `str.strip()` also removes the non-ASCII whitespace U+0085,
  U+00A0, U+1680, U+2000 to U+200A, U+2028, U+2029, U+202F, U+205F and
  U+3000, which this model keeps.
