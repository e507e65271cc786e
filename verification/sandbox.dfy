/** `run_code_in_sandbox`: each test case runs the submitted code followed by a
    call of `solution` on the test's input, in a fresh container, and the
    stripped output is compared with the expected text. The container run is
    a parameter: a function from the program text to what the run produced. */
module Sandbox {
  import opened Base
  import opened Strings

  /** One entry of `testcases`: `input` is the text of `test["input"]` as the
      f-string writes it into the program, and `expected` is
      `str(test["expected_output"])`. */
  datatype TestCase = TestCase(input: string, expected: string)

  /** What a container run gives back: its decoded output, or the message of
      the exception that the run (or the decoding) raised. */
  datatype RunOutcome = Finished(stdout: string) | Raised(message: string)

  /** An entry of `details`: a wrong answer, or a run that raised. */
  datatype Detail =
    | Mismatch(input: string, expected: string, got: string)
    | Crash(input: string, error: string)

  /** The dictionary returned by `run_code_in_sandbox`. */
  datatype Report = Report(passed: nat, failed: nat, total: nat, details: seq<Detail>)

  /** The line appended to the code: `print(solution(<input>))`, after a newline. */
  function CallLine(input: string): string {
    "\nprint(solution(" + input + "))"
  }

  /** The file written for one test: the stripped code, then the call line. */
  function Program(code: string, input: string): (p: string)
    ensures StartsWith(p, Strip(code))
    ensures p[|Strip(code)|..] == CallLine(input)
  {
    var c := Strip(code);
    assert (c + CallLine(input))[..|c|] == c;
    assert (c + CallLine(input))[|c|..] == CallLine(input);
    c + CallLine(input)
  }

  /** Whitespace around the submitted code does not change the program run. */
  lemma ProgramIgnoresPadding(w1: string, code: string, w2: string, input: string)
    requires AllSpace(w1) && AllSpace(w2)
    ensures Program(w1 + code + w2, input) == Program(code, input)
  {
    StripPadded(w1, code, w2);
  }

  /** The outcome of one test: nothing when the run finished and its stripped
      output is the expected text, otherwise the detail that is recorded. */
  function Verdict(code: string, t: TestCase, run: string -> RunOutcome): (d: Option<Detail>)
    ensures d.None? <==> run(Program(code, t.input)).Finished?
                         && Strip(run(Program(code, t.input)).stdout) == t.expected
    ensures d.Some? ==> d.value.input == t.input
    ensures d.Some? && d.value.Mismatch? ==> d.value.expected == t.expected && d.value.got != t.expected
    ensures d.Some? && d.value.Mismatch? ==> run(Program(code, t.input)).Finished?
                                             && d.value.got == Strip(run(Program(code, t.input)).stdout)
    ensures (d.Some? && d.value.Crash?) <==> run(Program(code, t.input)).Raised?
    ensures d.Some? && d.value.Crash? ==> d.value.error == run(Program(code, t.input)).message
  {
    match run(Program(code, t.input))
    case Finished(out) =>
      var got := Strip(out);
      if got == t.expected then None else Some(Mismatch(t.input, t.expected, got))
    case Raised(message) => Some(Crash(t.input, message))
  }

  /** The verdict of every test for one piece of code and one container. */
  function Judge(code: string, run: string -> RunOutcome): TestCase -> Option<Detail> {
    t => Verdict(code, t, run)
  }

  /** The `details` list: the verdicts of the failing tests, in test order. */
  function Failures(tests: seq<TestCase>, judge: TestCase -> Option<Detail>): (ds: seq<Detail>)
    ensures |ds| <= |tests|
  {
    if tests == [] then []
    else
      var v := judge(tests[|tests| - 1]);
      Failures(tests[..|tests| - 1], judge) + (if v.Some? then [v.value] else [])
  }

  /** The `passed` counter: how many tests gave no detail. */
  function Passed(tests: seq<TestCase>, judge: TestCase -> Option<Detail>): (n: nat)
    ensures n + |Failures(tests, judge)| == |tests|
  {
    if tests == [] then 0
    else Passed(tests[..|tests| - 1], judge) + (if judge(tests[|tests| - 1]).None? then 1 else 0)
  }

  /** `run_code_in_sandbox(code, testcases)`: runs every test in order and
      reports the two counters, the number of tests and the failure details. */
  method RunCodeInSandbox(code: string, tests: seq<TestCase>, run: string -> RunOutcome)
    returns (report: Report)
    ensures report == Report(Passed(tests, Judge(code, run)), |Failures(tests, Judge(code, run))|,
                             |tests|, Failures(tests, Judge(code, run)))
    ensures report.passed + report.failed == report.total
  {
    var passed: nat := 0;
    var failed: nat := 0;
    var errors: seq<Detail> := [];
    for i := 0 to |tests|
      invariant passed == Passed(tests[..i], Judge(code, run))
      invariant errors == Failures(tests[..i], Judge(code, run))
      invariant failed == |errors|
    {
      assert tests[..i + 1][..i] == tests[..i];
      var t := tests[i];
      var outcome := run(Program(code, t.input));
      match outcome {
        case Finished(out) =>
          var resultStr := Strip(out);
          if resultStr == t.expected {
            passed := passed + 1;
          } else {
            failed := failed + 1;
            errors := errors + [Mismatch(t.input, t.expected, resultStr)];
          }
        case Raised(message) =>
          failed := failed + 1;
          errors := errors + [Crash(t.input, message)];
      }
    }
    assert tests[..|tests|] == tests;
    report := Report(passed, failed, |tests|, errors);
  }

  /** Running two batches one after the other reports the concatenation of
      their details. */
  lemma {:induction false} FailuresAppend(a: seq<TestCase>, b: seq<TestCase>,
                                          judge: TestCase -> Option<Detail>)
    ensures Failures(a + b, judge) == Failures(a, judge) + Failures(b, judge)
    ensures Passed(a + b, judge) == Passed(a, judge) + Passed(b, judge)
    decreases |b|
  {
    if b == [] {
      assert a + b == a;
    } else {
      var b' := b[..|b| - 1];
      assert (a + b)[..|a + b| - 1] == a + b';
      assert (a + b)[|a + b| - 1] == b[|b| - 1];
      FailuresAppend(a, b', judge);
    }
  }

  /** Every test passes exactly when no test yields a detail. */
  lemma {:induction false} AllPassed(tests: seq<TestCase>, judge: TestCase -> Option<Detail>)
    ensures Passed(tests, judge) == |tests| <==> forall i :: 0 <= i < |tests| ==> judge(tests[i]).None?
  {
    if tests != [] {
      var init := tests[..|tests| - 1];
      AllPassed(init, judge);
      assert forall i :: 0 <= i < |init| ==> init[i] == tests[i];
    }
  }

  /** Every recorded detail is the verdict of one of the tests. */
  lemma {:induction false} FailuresFromTests(tests: seq<TestCase>, judge: TestCase -> Option<Detail>)
    ensures forall k :: 0 <= k < |Failures(tests, judge)| ==>
      exists i :: 0 <= i < |tests| && judge(tests[i]) == Some(Failures(tests, judge)[k])
  {
    if tests != [] {
      var init := tests[..|tests| - 1];
      var last := |tests| - 1;
      FailuresFromTests(init, judge);
      var fs := Failures(tests, judge);
      var fi := Failures(init, judge);
      assert fs == fi + (if judge(tests[last]).Some? then [judge(tests[last]).value] else []);
      assert |fs| <= |fi| + 1;
      forall k | 0 <= k < |fs|
        ensures exists i :: 0 <= i < |tests| && judge(tests[i]) == Some(fs[k])
      {
        if k < |fi| {
          assert fs[k] == fi[k];
          var i :| 0 <= i < |init| && judge(init[i]) == Some(fi[k]);
          assert init[i] == tests[i];
        } else {
          assert judge(tests[last]) == Some(fs[k]);
        }
      }
      assert forall k :: 0 <= k < |fs| ==>
        exists i :: 0 <= i < |tests| && judge(tests[i]) == Some(fs[k]);
    } else {
      assert Failures(tests, judge) == [];
    }
  }

  /** Output surrounded by whitespace (the trailing newline of `print`)
      matches the expected text. */
  lemma PaddedOutputPasses(code: string, t: TestCase, run: string -> RunOutcome, w1: string, w2: string)
    requires AllSpace(w1) && AllSpace(w2) && IsStripped(t.expected)
    requires run(Program(code, t.input)) == Finished(w1 + t.expected + w2)
    ensures Verdict(code, t, run) == None
  {
    StripOfPadded(w1, t.expected, w2);
  }

  /** The share of passed tests used as a coding score lies in [0, 1]. */
  lemma PassedShare(tests: seq<TestCase>, judge: TestCase -> Option<Detail>)
    requires tests != []
    ensures 0.0 <= (Passed(tests, judge) as real) / (|tests| as real) <= 1.0
  {
    ShareInUnit(Passed(tests, judge), |tests|);
  }

  /** When every run prints the expected text followed by a newline, every
      test passes. */
  lemma {:induction false} CorrectRunsPassAll(code: string, tests: seq<TestCase>, run: string -> RunOutcome)
    requires forall i :: 0 <= i < |tests| ==> IsStripped(tests[i].expected)
    requires forall i :: 0 <= i < |tests| ==> run(Program(code, tests[i].input)) == Finished(tests[i].expected + "\n")
    ensures Passed(tests, Judge(code, run)) == |tests| && Failures(tests, Judge(code, run)) == []
  {
    var judge := Judge(code, run);
    forall i | 0 <= i < |tests| ensures judge(tests[i]).None? {
      PrintedLinePasses(code, tests[i], run);
    }
    AllPassed(tests, judge);
  }

  lemma NewlineIsPadding(e: string)
    ensures e + "\n" == [] + e + "\n" && AllSpace("\n")
  {
    assert "\n"[0] == '\n';
  }

  /** What `print` writes for the expected text passes its test. */
  lemma PrintedLinePasses(code: string, t: TestCase, run: string -> RunOutcome)
    requires IsStripped(t.expected)
    requires run(Program(code, t.input)) == Finished(t.expected + "\n")
    ensures Judge(code, run)(t).None?
  {
    NewlineIsPadding(t.expected);
    PaddedOutputPasses(code, t, run, [], "\n");
    assert Judge(code, run)(t) == Verdict(code, t, run);
  }

  /** The sample test file's adder with its four test cases: when the
      container prints each sum, the report counts four passes and no failure. */
  method AdderSample(run: string -> RunOutcome) returns (report: Report)
    requires forall i :: 0 <= i < |AdderTests()| ==>
      run(Program(AdderCode, AdderTests()[i].input)) == Finished(AdderTests()[i].expected + "\n")
    ensures report.passed == 4 && report.failed == 0 && report.total == 4 && report.details == []
  {
    var tests := AdderTests();
    AdderExpectedStripped();
    CorrectRunsPassAll(AdderCode, tests, run);
    report := RunCodeInSandbox(AdderCode, tests, run);
  }

  lemma AdderExpectedStripped()
    ensures forall i :: 0 <= i < |AdderTests()| ==> IsStripped(AdderTests()[i].expected)
  {
    assert !IsSpace('5') && !IsSpace('0') && !IsSpace('3');
  }

  const AdderCode: string := "\ndef solution(x, y):\n    return x + y\n"

  function AdderTests(): seq<TestCase> {
    [TestCase("2, 3", "5"), TestCase("0, 0", "0"), TestCase("-5, 5", "0"), TestCase("100, 200", "300")]
  }
}
