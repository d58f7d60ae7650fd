/** The fail-fast tester shared by both backends, and the `Test` command's
    chain of lookups that feeds it. The solution program is a function from
    the text written to its standard input to the text it prints. */
module Tester {
  import opened Results
  import opened Text
  import opened Normalizer
  import opened FileSystem
  import opened Storage
  import opened Workspace

  /** What the tester sees for one case: the normalised input, the
      normalised output of the program and the normalised expected output.
      A failing case reports its observation as the triple. */
  datatype Observation = Observation(input: string, output: string, expected: string)

  /** The tester's answer together with the inputs the program was
      started on, in order. */
  datatype TestRun = TestRun(mismatch: Option<Observation>, invoked: seq<string>)

  type Program = string -> string

  /** Running the program: its decoded standard output with surrounding
      whitespace stripped. */
  function RunProgram(run: Program, input: string): (r: string)
    ensures IsTrimmed(r)
    ensures |r| <= |run(input)| && forall c :: c in r ==> c in run(input)
    ensures r == [] <==> AllSpace(run(input))
  {
    Trim(run(input))
  }

  /** Everything the tester computes for one case: the normalised input
      it feeds to the program, the normalised output of the program, and
      the normalised expected output. */
  function Observe(run: Program, c: TestCase): (r: Observation)
    ensures r.input == StripNewline(c.0) && r.expected == StripNewline(c.1)
    ensures NoCrlf(r.input) && NoCrlf(r.output) && NoCrlf(r.expected)
    ensures r.output == StripNewline(RunProgram(run, r.input))
  {
    var input := StripNewline(c.0);
    Observation(input, StripNewline(RunProgram(run, input)), StripNewline(c.1))
  }

  /** Two cases are observed alike exactly when their inputs normalise
      alike and their expected outputs normalise alike: the stored texts
      matter only through their normal forms. */
  lemma {:induction false} ObserveDependsOnNormalForms(run: Program, c1: TestCase, c2: TestCase)
    ensures Observe(run, c1) == Observe(run, c2)
        <==> StripNewline(c1.0) == StripNewline(c2.0) && StripNewline(c1.1) == StripNewline(c2.1)
  {
  }

  predicate Agrees(m: Observation) {
    m.output == m.expected
  }

  predicate Passes(run: Program, c: TestCase) {
    Agrees(Observe(run, c))
  }

  // The fail-fast loop, over any per-case check

  /** Runs `check` on the cases in order and stops at the first one whose
      output differs from the expected one. */
  function Loop(check: TestCase -> Observation, cases: seq<TestCase>): (r: TestRun)
    ensures |r.invoked| <= |cases|
    ensures r.mismatch.None? ==> |r.invoked| == |cases|
    ensures r.mismatch.Some? ==>
      && r.invoked != []
      && !Agrees(r.mismatch.value)
      && r.mismatch.value.input == r.invoked[|r.invoked| - 1]
  {
    if cases == [] then
      TestRun(None, [])
    else
      var m := check(cases[0]);
      if !Agrees(m) then
        TestRun(Some(m), [m.input])
      else
        var rest := Loop(check, cases[1..]);
        TestRun(rest.mismatch, [m.input] + rest.invoked)
  }

  /** The checked inputs are those of a prefix of the cases, in order. */
  lemma {:induction false} LoopTrace(check: TestCase -> Observation, cases: seq<TestCase>)
    ensures |Loop(check, cases).invoked| <= |cases|
    ensures forall i :: 0 <= i < |Loop(check, cases).invoked| ==>
      Loop(check, cases).invoked[i] == check(cases[i]).input
  {
    if cases != [] && Agrees(check(cases[0])) {
      LoopTrace(check, cases[1..]);
    }
  }

  /** No mismatch exactly when every case agrees, and then every case was
      checked. */
  lemma {:induction false} LoopPass(check: TestCase -> Observation, cases: seq<TestCase>)
    ensures Loop(check, cases).mismatch.None? <==> forall i :: 0 <= i < |cases| ==> Agrees(check(cases[i]))
    ensures Loop(check, cases).mismatch.None? ==> |Loop(check, cases).invoked| == |cases|
  {
    if cases != [] && Agrees(check(cases[0])) {
      LoopPass(check, cases[1..]);
      assert forall i :: 1 <= i < |cases| ==> cases[i] == cases[1..][i - 1];
    }
  }

  /** A mismatch is the report of the first disagreeing case, which is the
      last case checked. */
  lemma {:induction false} LoopFirstFailure(check: TestCase -> Observation, cases: seq<TestCase>)
    requires Loop(check, cases).mismatch.Some?
    ensures 1 <= |Loop(check, cases).invoked| <= |cases|
    ensures forall i :: 0 <= i < |Loop(check, cases).invoked| - 1 ==> Agrees(check(cases[i]))
    ensures !Agrees(check(cases[|Loop(check, cases).invoked| - 1]))
    ensures Loop(check, cases).mismatch.value == check(cases[|Loop(check, cases).invoked| - 1])
  {
    if Agrees(check(cases[0])) {
      LoopFirstFailure(check, cases[1..]);
      assert forall i :: 1 <= i < |cases| ==> cases[i] == cases[1..][i - 1];
    }
  }

  /** Once a case fails, the cases after it change nothing. */
  lemma {:induction false} LoopStopsAtFailure(check: TestCase -> Observation, a: seq<TestCase>, b: seq<TestCase>)
    requires Loop(check, a).mismatch.Some?
    ensures Loop(check, a + b) == Loop(check, a)
  {
    assert (a + b)[0] == a[0];
    if Agrees(check(a[0])) {
      assert (a + b)[1..] == a[1..] + b;
      LoopStopsAtFailure(check, a[1..], b);
    }
  }

  /** An agreeing first case is checked and the loop goes on with the
      rest. */
  lemma {:induction false} LoopCons(check: TestCase -> Observation, x: TestCase, rest: seq<TestCase>)
    requires Agrees(check(x))
    ensures Loop(check, [x] + rest).mismatch == Loop(check, rest).mismatch
    ensures Loop(check, [x] + rest).invoked == [check(x).input] + Loop(check, rest).invoked
  {
    assert ([x] + rest)[0] == x;
    assert ([x] + rest)[1..] == rest;
  }

  /** A passing prefix is checked in full and the rest decides the
      answer. */
  lemma {:induction false} LoopAfterPasses(check: TestCase -> Observation, a: seq<TestCase>, b: seq<TestCase>)
    requires Loop(check, a).mismatch.None?
    ensures Loop(check, a + b).mismatch == Loop(check, b).mismatch
    ensures Loop(check, a + b).invoked == Loop(check, a).invoked + Loop(check, b).invoked
  {
    if a == [] {
      assert a + b == b;
    } else {
      var x, a' := a[0], a[1..];
      assert Agrees(check(x));
      assert a == [x] + a';
      assert a + b == [x] + (a' + b);
      LoopAfterPasses(check, a', b);
      LoopCons(check, x, a');
      LoopCons(check, x, a' + b);
      var i, j := Loop(check, a').invoked, Loop(check, b).invoked;
      assert [check(x).input] + (i + j) == ([check(x).input] + i) + j;
    }
  }

  /** The first disagreeing case is the one reported, and it is the last
      one checked. */
  lemma {:induction false} LoopReportsFirst(check: TestCase -> Observation, cases: seq<TestCase>, k: nat)
    requires k < |cases| && !Agrees(check(cases[k]))
    requires forall i :: 0 <= i < k ==> Agrees(check(cases[i]))
    ensures Loop(check, cases).mismatch == Some(check(cases[k]))
    ensures |Loop(check, cases).invoked| == k + 1
  {
    if k > 0 {
      assert Agrees(check(cases[0]));
      forall i | 0 <= i < k - 1
        ensures Agrees(check(cases[1..][i]))
      {
        assert cases[1..][i] == cases[i + 1];
      }
      assert cases[1..][k - 1] == cases[k];
      LoopReportsFirst(check, cases[1..], k - 1);
    }
  }

  /** Two checks that agree on the cases actually checked give the same
      run. */
  lemma {:induction false} LoopDependsOnChecked(check1: TestCase -> Observation, check2: TestCase -> Observation, cases: seq<TestCase>)
    requires forall i :: 0 <= i < |cases| && i < |Loop(check1, cases).invoked| ==> check1(cases[i]) == check2(cases[i])
    ensures Loop(check2, cases) == Loop(check1, cases)
  {
    if cases != [] {
      assert check1(cases[0]) == check2(cases[0]);
      if Agrees(check1(cases[0])) {
        var rest := Loop(check1, cases[1..]);
        forall i | 0 <= i < |cases[1..]| && i < |rest.invoked|
          ensures check1(cases[1..][i]) == check2(cases[1..][i])
        {
          assert cases[1..][i] == cases[i + 1];
        }
        LoopDependsOnChecked(check1, check2, cases[1..]);
      }
    }
  }

  // The tester

  /** The tester's per-case check: run the program on the case. */
  function Checker(run: Program): TestCase -> Observation {
    c => Observe(run, c)
  }

  /** The tester's loop: every case is checked by running the program. */
  function RunCases(run: Program, cases: seq<TestCase>): TestRun {
    Loop(Checker(run), cases)
  }

  /** The program is started on the normalised inputs of a prefix of the
      cases, in order; the answer is "no mismatch" exactly when every case
      passes, and then every case was run. */
  lemma {:induction false} RunCasesPass(run: Program, cases: seq<TestCase>)
    ensures |RunCases(run, cases).invoked| <= |cases|
    ensures forall i :: 0 <= i < |RunCases(run, cases).invoked| ==>
      RunCases(run, cases).invoked[i] == StripNewline(cases[i].0)
    ensures RunCases(run, cases).mismatch.None? <==> forall i :: 0 <= i < |cases| ==> Passes(run, cases[i])
    ensures RunCases(run, cases).mismatch.None? ==> |RunCases(run, cases).invoked| == |cases|
  {
    LoopTrace(Checker(run), cases);
    LoopPass(Checker(run), cases);
  }

  /** A mismatch is the triple of the first failing case; the cases before
      it passed, and it is the last case the program was started on. */
  lemma {:induction false} RunCasesFirstFailure(run: Program, cases: seq<TestCase>)
    requires RunCases(run, cases).mismatch.Some?
    ensures 1 <= |RunCases(run, cases).invoked| <= |cases|
    ensures forall i :: 0 <= i < |RunCases(run, cases).invoked| - 1 ==> Passes(run, cases[i])
    ensures !Passes(run, cases[|RunCases(run, cases).invoked| - 1])
    ensures RunCases(run, cases).mismatch.value == Observe(run, cases[|RunCases(run, cases).invoked| - 1])
  {
    var check := Checker(run);
    assert RunCases(run, cases) == Loop(check, cases);
    LoopFirstFailure(check, cases);
    var k := |Loop(check, cases).invoked| - 1;
    CheckerObserves(run, cases[k]);
    EarlierPass(run, cases, k);
  }

  lemma {:induction false} CheckerObserves(run: Program, c: TestCase)
    ensures Checker(run)(c) == Observe(run, c)
    ensures Agrees(Checker(run)(c)) == Passes(run, c)
  {
  }

  lemma {:induction false} EarlierPass(run: Program, cases: seq<TestCase>, k: nat)
    requires k <= |cases|
    requires forall i :: 0 <= i < k ==> Agrees(Checker(run)(cases[i]))
    ensures forall i :: 0 <= i < k ==> Passes(run, cases[i])
  {
    forall i | 0 <= i < k
      ensures Passes(run, cases[i])
    {
      CheckerObserves(run, cases[i]);
    }
  }

  /** Cases after the first failing one are never run and change
      nothing. */
  lemma {:induction false} RunCasesStopsAtFailure(run: Program, a: seq<TestCase>, b: seq<TestCase>)
    requires RunCases(run, a).mismatch.Some?
    ensures RunCases(run, a + b) == RunCases(run, a)
  {
    LoopStopsAtFailure(Checker(run), a, b);
  }

  /** The answer depends on the program only through the inputs it was
      actually started on: two programs that agree there give the same
      run. */
  lemma {:induction false} RunCasesDependsOnInvoked(run1: Program, run2: Program, cases: seq<TestCase>)
    requires forall x :: x in RunCases(run1, cases).invoked ==> run1(x) == run2(x)
    ensures RunCases(run2, cases) == RunCases(run1, cases)
  {
    var check1 := Checker(run1);
    var check2 := Checker(run2);
    LoopTrace(check1, cases);
    forall i | 0 <= i < |cases| && i < |Loop(check1, cases).invoked|
      ensures check1(cases[i]) == check2(cases[i])
    {
      assert Loop(check1, cases).invoked[i] in RunCases(run1, cases).invoked;
    }
    LoopDependsOnChecked(check1, check2, cases);
  }

  /** `ExeTester.Test` and `PythonTester.Test`: a program path that is not
      a regular file is refused before any case runs. */
  function Test(fs: Fs, program: Path, run: Program, cases: seq<TestCase>): (r: Result<TestRun, FsError>)
    ensures r.Failure? <==> program !in fs.files
    ensures r.Failure? ==> r.error == FileNotFound(program)
    ensures r.Success? ==> (r.value.mismatch.None? <==> forall i :: 0 <= i < |cases| ==> Passes(run, cases[i]))
  {
    if !IsFile(fs, program) then
      Failure(FileNotFound(program))
    else
      RunCasesPass(run, cases);
      Success(RunCases(run, cases))
  }

  /** The `Test` command without its printing: open the problem's store,
      load the cases (before the program is looked for), then test the
      backend's program. */
  function TestProblem(fs: Fs, backend: Backend, id: string, run: Program): (r: Result<TestRun, FsError>)
    ensures FolderPath(id) !in fs.dirs ==> r == Failure(FileNotFound(FolderPath(id)))
    ensures r.Success? <==>
      && FolderPath(id) in fs.dirs
      && GetTestCases(fs, TestCaseStorage(FolderPath(id))).Success?
      && ProgramPath(backend, id) in fs.files
    ensures r.Failure? && FolderPath(id) in fs.dirs && GetTestCases(fs, TestCaseStorage(FolderPath(id))).Success? ==>
      r.error == FileNotFound(ProgramPath(backend, id))
    ensures FolderPath(id) in fs.dirs && GetTestCases(fs, TestCaseStorage(FolderPath(id))).Failure? ==>
      r == Failure(GetTestCases(fs, TestCaseStorage(FolderPath(id))).error)
    ensures r.Success? ==>
      r.value == RunCases(run, GetTestCases(fs, TestCaseStorage(FolderPath(id))).value)
  {
    var storage :- GetTestCaseStorage(fs, id);
    var cases :- GetTestCases(fs, storage);
    Test(fs, ProgramPath(backend, id), run, cases)
  }

  // End-to-end scenarios on a fresh workspace

  /** The `Init` command without its prompt: create the workspace in a
      well-formed file system where the folder is free, then save the
      fetched cases into its store. `None` stands for a fetch that raised:
      the command then returns with the folder and its starter file in
      place but nothing saved. */
  function Initialise(fs: Fs, backend: Backend, template: string, id: string, fetched: Option<seq<TestCase>>)
    : (r: Result<Fs, FsError>)
    requires Wf(fs)
    ensures r.Success? <==> FolderPath(id) !in fs.dirs && FolderPath(id) !in fs.files
    ensures r.Success? ==> Wf(r.value)
    ensures r.Success? ==> FolderPath(id) in r.value.dirs && StarterPath(backend, id) in r.value.files
    ensures r.Success? && fetched.Some? ==>
      GetTestCases(r.value, TestCaseStorage(FolderPath(id))) == Success(fetched.value)
    ensures r.Success? && fetched.None? ==>
      GetTestCases(r.value, TestCaseStorage(FolderPath(id)))
        == Failure(FileNotFound(TestCaseStorage(FolderPath(id)).FilePath()))
  {
    var (created, storage) :- CreateTestCaseStorage(fs, backend, template, id);
    CreateWf(fs, backend, template, id);
    match fetched
    case None =>
      FreshStoreIsEmpty(fs, backend, template, id);
      Success(created)
    case Some(cases) =>
      assert storage.FilePath() !in created.dirs by {
        NothingWithinAbsent(fs, FolderPath(id));
        assert Within(storage.FilePath(), FolderPath(id));
      }
      SaveLoad(created, storage, cases);
      SaveWf(created, storage, cases);
      StorageFileDistinct(backend, id);
      Save(created, storage, cases)
  }

  /** After a fetch that raised, the half-made workspace is refused by the
      `Test` command for want of `testCases.txt`, whatever the backend. */
  lemma {:induction false} FailedFetchLeavesNoCases(fs: Fs, backend: Backend, template: string, id: string, run: Program)
    requires Wf(fs) && FolderPath(id) !in fs.dirs && FolderPath(id) !in fs.files
    ensures Initialise(fs, backend, template, id, None).Success?
    ensures TestProblem(Initialise(fs, backend, template, id, None).value, backend, id, run)
      == Failure(FileNotFound(TestCaseStorage(FolderPath(id)).FilePath()))
  {
  }

  /** With the Python backend the starter script is the program, so a
      freshly initialised problem goes straight to its saved cases. */
  lemma {:induction false} PythonTestableAfterInit(fs: Fs, template: string, id: string, cases: seq<TestCase>, run: Program)
    requires Wf(fs) && FolderPath(id) !in fs.dirs && FolderPath(id) !in fs.files
    ensures Initialise(fs, Python, template, id, Some(cases)).Success?
    ensures TestProblem(Initialise(fs, Python, template, id, Some(cases)).value, Python, id, run)
      == Success(RunCases(run, cases))
  {
    StarterIsProgram(Python, id);
    StorageFileDistinct(Python, id);
  }

  /** With the executable backend nothing runs until a build puts the
      binary next to the source; after that the cases run. */
  lemma {:induction false} ExeNeedsBuild(fs: Fs, template: string, id: string, cases: seq<TestCase>, run: Program, binary: Content)
    requires Wf(fs) && FolderPath(id) !in fs.dirs && FolderPath(id) !in fs.files
    ensures Initialise(fs, Exe, template, id, Some(cases)).Success?
    ensures TestProblem(Initialise(fs, Exe, template, id, Some(cases)).value, Exe, id, run)
      == Failure(FileNotFound(ProgramPath(Exe, id)))
    ensures
      var built := WriteFile(Initialise(fs, Exe, template, id, Some(cases)).value, ProgramPath(Exe, id), binary);
      TestProblem(built, Exe, id, run) == Success(RunCases(run, cases))
  {
    var folder := FolderPath(id);
    NothingWithinAbsent(fs, folder);
    assert Within(ProgramPath(Exe, id), folder);
    StarterIsProgram(Exe, id);
    StorageFileDistinct(Exe, id);
  }

  // The tester's own examples, with a stand-in for the doubling program

  /** The doubling program on the inputs the examples use; it ends its
      output with a carriage-return line feed. */
  function MultiplyByTwo(input: string): string {
    if input == "1" then "2\r\n"
    else if input == "2" then "4\r\n"
    else if input == "3" then "6\r\n"
    else ""
  }

  /** A one-character, non-blank text is its own normal form. */
  lemma {:induction false} SingleCharNormal(s: string)
    requires |s| == 1 && !IsSpace(s[0])
    ensures StripNewline(s) == s
  {
    assert Join([s]) == s;
    SimpleLines([s], s);
  }

  /** A case whose input and expected output are single non-blank
      characters, for a program that prints one non-blank character and a
      line break. */
  lemma {:induction false} ObserveSingleChars(run: Program, c: TestCase, printed: string)
    requires |c.0| == 1 && !IsSpace(c.0[0])
    requires |c.1| == 1 && !IsSpace(c.1[0])
    requires |printed| == 1 && !IsSpace(printed[0])
    requires run(c.0) == printed + "\r\n"
    ensures Observe(run, c) == Observation(c.0, printed, c.1)
  {
    SingleCharNormal(c.0);
    SingleCharNormal(c.1);
    SingleCharNormal(printed);
    assert [] + printed + "\r\n" == printed + "\r\n";
    TrimPadded([], printed, "\r\n");
  }

  /** On an existing program the tester's answer is the loop's. */
  lemma {:induction false} TestRunsCases(fs: Fs, program: Path, run: Program, cases: seq<TestCase>)
    requires program in fs.files
    ensures Test(fs, program, run, cases) == Success(RunCases(run, cases))
  {
  }

  /** When every case passes, the tester reports no mismatch. */
  lemma {:induction false} TestReportsNone(fs: Fs, program: Path, run: Program, cases: seq<TestCase>)
    requires program in fs.files
    requires forall i :: 0 <= i < |cases| ==> Passes(run, cases[i])
    ensures Test(fs, program, run, cases).Success?
    ensures Test(fs, program, run, cases).value.mismatch == None
  {
  }

  /** When case `k` is the first failing one, the loop reports its triple
      after starting the program `k + 1` times. */
  lemma {:induction false} RunCasesReportsFirst(run: Program, cases: seq<TestCase>, k: nat)
    requires k < |cases| && !Passes(run, cases[k])
    requires forall i :: 0 <= i < k ==> Passes(run, cases[i])
    ensures RunCases(run, cases).mismatch == Some(Observe(run, cases[k]))
    ensures |RunCases(run, cases).invoked| == k + 1
  {
    var check := Checker(run);
    CheckerObserves(run, cases[k]);
    forall i | 0 <= i < k
      ensures Agrees(check(cases[i]))
    {
      CheckerObserves(run, cases[i]);
    }
    LoopReportsFirst(check, cases, k);
  }

  /** The same, seen through the tester. */
  lemma {:induction false} TestReportsFirst(fs: Fs, program: Path, run: Program, cases: seq<TestCase>, k: nat)
    requires program in fs.files
    requires k < |cases| && !Passes(run, cases[k])
    requires forall i :: 0 <= i < k ==> Passes(run, cases[i])
    ensures Test(fs, program, run, cases) == Success(RunCases(run, cases))
    ensures RunCases(run, cases).mismatch == Some(Observe(run, cases[k]))
    ensures |RunCases(run, cases).invoked| == k + 1
  {
    TestRunsCases(fs, program, run, cases);
    RunCasesReportsFirst(run, cases, k);
  }

  /** What the tester observes when the doubling program gets "1", "2" or
      "3" and the expected output is one non-blank character. */
  lemma {:induction false} Doubles(c: TestCase, input: string, doubled: string)
    requires c.0 == input
    requires || (input == "1" && doubled == "2")
             || (input == "2" && doubled == "4")
             || (input == "3" && doubled == "6")
    requires |c.1| == 1 && !IsSpace(c.1[0])
    ensures Observe(MultiplyByTwo, c) == Observation(input, doubled, c.1)
  {
    ObserveSingleChars(MultiplyByTwo, c, doubled);
  }

  lemma {:induction false} DoublingPassesOn(fs: Fs, program: Path, cases: seq<TestCase>)
    requires program in fs.files
    requires |cases| == 3 && cases[0] == ("1", "2") && cases[1] == ("2", "4") && cases[2] == ("3", "6")
    ensures Test(fs, program, MultiplyByTwo, cases).Success?
    ensures Test(fs, program, MultiplyByTwo, cases).value.mismatch == None
  {
    forall i | 0 <= i < |cases|
      ensures Passes(MultiplyByTwo, cases[i])
    {
      if i == 0 {
        Doubles(cases[i], "1", "2");
      } else if i == 1 {
        Doubles(cases[i], "2", "4");
      } else {
        Doubles(cases[i], "3", "6");
      }
    }
    TestReportsNone(fs, program, MultiplyByTwo, cases);
  }

  /** The doubling program passes its three cases. */
  lemma {:induction false} DoublingPasses(fs: Fs, program: Path)
    requires program in fs.files
    ensures Test(fs, program, MultiplyByTwo, [("1", "2"), ("2", "4"), ("3", "6")]).Success?
    ensures Test(fs, program, MultiplyByTwo, [("1", "2"), ("2", "4"), ("3", "6")]).value.mismatch == None
  {
    DoublingPassesOn(fs, program, [("1", "2"), ("2", "4"), ("3", "6")]);
  }

  lemma {:induction false} DoublingFailsLastOn(fs: Fs, program: Path, cases: seq<TestCase>)
    requires program in fs.files
    requires |cases| == 3 && cases[0] == ("1", "2") && cases[1] == ("2", "4") && cases[2] == ("3", "7")
    ensures Test(fs, program, MultiplyByTwo, cases).Success?
    ensures Test(fs, program, MultiplyByTwo, cases).value.mismatch == Some(Observation("3", "6", "7"))
  {
    FirstTwoPass(cases);
    Doubles(cases[2], "3", "6");
    TestReportsFirst(fs, program, MultiplyByTwo, cases, 2);
  }

  lemma {:induction false} FirstTwoPass(cases: seq<TestCase>)
    requires |cases| >= 2 && cases[0] == ("1", "2") && cases[1] == ("2", "4")
    ensures forall i :: 0 <= i < 2 ==> Passes(MultiplyByTwo, cases[i])
  {
    forall i | 0 <= i < 2
      ensures Passes(MultiplyByTwo, cases[i])
    {
      if i == 0 {
        Doubles(cases[i], "1", "2");
      } else {
        Doubles(cases[i], "2", "4");
      }
    }
  }

  /** A wrong expected value in the last case is reported as the triple
      (input, actual output, expected output) of that case. */
  lemma {:induction false} DoublingFailsLast(fs: Fs, program: Path)
    requires program in fs.files
    ensures Test(fs, program, MultiplyByTwo, [("1", "2"), ("2", "4"), ("3", "7")]).Success?
    ensures Test(fs, program, MultiplyByTwo, [("1", "2"), ("2", "4"), ("3", "7")]).value.mismatch
      == Some(Observation("3", "6", "7"))
  {
    DoublingFailsLastOn(fs, program, [("1", "2"), ("2", "4"), ("3", "7")]);
  }

  lemma {:induction false} FailFastOn(fs: Fs, program: Path, cases: seq<TestCase>)
    requires program in fs.files
    requires |cases| == 3 && cases[0] == ("1", "2") && cases[1] == ("2", "5") && cases[2] == ("3", "7")
    ensures Test(fs, program, MultiplyByTwo, cases) == Success(TestRun(Some(Observation("2", "4", "5")), ["1", "2"]))
  {
    FailFastReport(cases);
    FailFastTrace(cases);
    TestRunsCases(fs, program, MultiplyByTwo, cases);
  }

  lemma {:induction false} FailFastReport(cases: seq<TestCase>)
    requires |cases| == 3 && cases[0] == ("1", "2") && cases[1] == ("2", "5") && cases[2] == ("3", "7")
    ensures RunCases(MultiplyByTwo, cases).mismatch == Some(Observation("2", "4", "5"))
    ensures |RunCases(MultiplyByTwo, cases).invoked| == 2
  {
    forall i | 0 <= i < 1
      ensures Passes(MultiplyByTwo, cases[i])
    {
      Doubles(cases[i], "1", "2");
    }
    Doubles(cases[1], "2", "4");
    RunCasesReportsFirst(MultiplyByTwo, cases, 1);
  }

  lemma {:induction false} FailFastTrace(cases: seq<TestCase>)
    requires |cases| == 3 && cases[0] == ("1", "2") && cases[1] == ("2", "5") && cases[2] == ("3", "7")
    requires |RunCases(MultiplyByTwo, cases).invoked| == 2
    ensures RunCases(MultiplyByTwo, cases).invoked == ["1", "2"]
  {
    InvokedSingleChar(MultiplyByTwo, cases, 0);
    InvokedSingleChar(MultiplyByTwo, cases, 1);
  }

  /** A one-character, non-blank input reaches the program unchanged. */
  lemma {:induction false} InvokedSingleChar(run: Program, cases: seq<TestCase>, i: nat)
    requires i < |RunCases(run, cases).invoked| && i < |cases|
    requires |cases[i].0| == 1 && !IsSpace(cases[i].0[0])
    ensures RunCases(run, cases).invoked[i] == cases[i].0
  {
    LoopTrace(Checker(run), cases);
    assert RunCases(run, cases).invoked[i] == StripNewline(cases[i].0);
    SingleCharNormal(cases[i].0);
  }

  /** When the second case already fails, the third is never run: only the
      first two inputs reach the program. */
  lemma {:induction false} FailFastExample(fs: Fs, program: Path)
    requires program in fs.files
    ensures Test(fs, program, MultiplyByTwo, [("1", "2"), ("2", "5"), ("3", "7")])
      == Success(TestRun(Some(Observation("2", "4", "5")), ["1", "2"]))
  {
    FailFastOn(fs, program, [("1", "2"), ("2", "5"), ("3", "7")]);
  }

  lemma {:induction false} MixedLineEndingsCase(run: Program, c: TestCase)
    requires c.0 == "1" && c.1 == "1\n2\n3" && run(c.0) == "1\r\n2\r\n3\r\n"
    ensures Passes(run, c)
  {
    SingleCharNormal(c.0);
    var printed := run(c.0);
    assert printed == [] + "1\r\n2\r\n3" + "\r\n";
    TrimPadded([], "1\r\n2\r\n3", "\r\n");
    MixedEndingsExample();
  }

  /** A program that ends every line with a carriage return passes against
      line-feed expected output. */
  lemma {:induction false} MixedLineEndingsPass(fs: Fs, program: Path, run: Program)
    requires program in fs.files
    requires run("1") == "1\r\n2\r\n3\r\n"
    ensures Test(fs, program, run, [("1", "1\n2\n3")]).Success?
    ensures Test(fs, program, run, [("1", "1\n2\n3")]).value.mismatch == None
  {
    var cases := [("1", "1\n2\n3")];
    MixedLineEndingsCase(run, cases[0]);
    TestReportsNone(fs, program, run, cases);
  }
}
