/** The judge: one loop runs the code against every test case, a second folds the results into the verdict, and the
    details page later looks up the first failed test again. */
module Judge {
  import opened Common

  // ---- Running the tests ----

  /** What one call of the executor gives: an error, no result at all, or a result. */
  datatype Outcome =
    | CallFailed(message: string)
    | NoResult
    | Ran(output: string, status: string, timeMs: int, memoryKB: int)

  datatype TestCaseResult = TestCaseResult(
    stdout: string, stderr: string, timeMs: int, memoryKB: int, error: string, status: string)

  datatype ExecuteCodeResult = ExecuteCodeResult(
    stdout: string, stderr: string, timeMs: int, status: string, results: seq<TestCaseResult>)

  function ResultOf(outcome: Outcome): TestCaseResult {
    match outcome
    case CallFailed(message) => TestCaseResult("", "", 0, 0, message, "error")
    case NoResult => TestCaseResult("", "", 0, 0, "Execution result is nil", "error")
    case Ran(output, status, timeMs, memoryKB) =>
      if status == "success" then TestCaseResult(output, "", timeMs, memoryKB, "", status)
      else TestCaseResult("", output, timeMs, memoryKB, "", status)
  }

  predicate IsLargestTime(results: seq<TestCaseResult>, t: int) {
    && 0 <= t
    && (forall i :: 0 <= i < |results| ==> results[i].timeMs <= t)
    && (t == 0 || exists i :: 0 <= i < |results| && results[i].timeMs == t)
  }

  /** One turn of the loop: the entry starts as an error and is filled from what the executor gave. */
  method FillResult(outcome: Outcome) returns (result: TestCaseResult, failed: bool)
    ensures result == ResultOf(outcome)
    ensures match outcome
      case CallFailed(message) => result == TestCaseResult("", "", 0, 0, message, "error")
      case NoResult => result == TestCaseResult("", "", 0, 0, "Execution result is nil", "error")
      case Ran(output, status, timeMs, memoryKB) =>
        && (status == "success" ==> result == TestCaseResult(output, "", timeMs, memoryKB, "", "success"))
        && (status != "success" ==> result == TestCaseResult("", output, timeMs, memoryKB, "", status))
    ensures failed <==> !(outcome.Ran? && outcome.status == "success")
  {
    result := TestCaseResult("", "", 0, 0, "", "error");
    match outcome {
      case CallFailed(message) =>
        return result.(error := message), true;
      case NoResult =>
        return result.(error := "Execution result is nil"), true;
      case Ran(output, status, timeMs, memoryKB) =>
        result := result.(timeMs := timeMs, memoryKB := memoryKB, status := status);
        if status == "success" {
          return result.(stdout := output), false;
        }
        return result.(stderr := output), true;
    }
  }

  /** The result-building loop of runCodeAgainstTestCases; `execute(i, input)` is what call `i` happens to give. */
  method RunCodeAgainstTestCases(execute: (nat, string) -> Outcome, testCases: seq<string>)
    returns (r: ExecuteCodeResult)
    ensures |r.results| == |testCases|
    ensures forall i :: 0 <= i < |testCases| ==> r.results[i] == ResultOf(execute(i, testCases[i]))
    ensures r.status == "success" || r.status == "error"
    ensures r.status == "success" <==> forall i :: 0 <= i < |testCases| ==> r.results[i].status == "success"
    ensures IsLargestTime(r.results, r.timeMs)
    ensures testCases != [] ==> r.stdout == r.results[0].stdout && r.stderr == r.results[0].stderr
  {
    var results := new TestCaseResult[|testCases|](_ => TestCaseResult("", "", 0, 0, "", ""));
    var maxExecutionTime := 0;
    var hasError := false;
    for i := 0 to |testCases|
      invariant forall j :: 0 <= j < i ==> results[j] == ResultOf(execute(j, testCases[j]))
      invariant hasError <==> exists j :: 0 <= j < i && results[j].status != "success"
      invariant IsLargestTime(results[..i], maxExecutionTime)
    {
      ghost var before := results[..i];
      var result, failed := FillResult(execute(i, testCases[i]));
      results[i] := result;
      if failed {
        hasError := true;
      }
      if result.timeMs > maxExecutionTime {
        maxExecutionTime := result.timeMs;
      }
      assert results[..i + 1] == before + [results[i]];
      LargestTimeStep(before, results[i]);
    }
    assert results[..] == results[..|testCases|];
    r := ExecuteCodeResult("", "", maxExecutionTime, if hasError then "error" else "success", results[..]);
    if |testCases| > 0 {
      r := r.(stdout := results[0].stdout, stderr := results[0].stderr);
    }
  }

  lemma LargestTimeStep(before: seq<TestCaseResult>, r: TestCaseResult)
    ensures forall t :: IsLargestTime(before, t) ==> IsLargestTime(before + [r], Max(t, r.timeMs))
  {
    forall t | IsLargestTime(before, t)
      ensures IsLargestTime(before + [r], Max(t, r.timeMs))
    {
      var all := before + [r];
      if t < r.timeMs {
        assert all[|before|].timeMs == r.timeMs;
      } else if t != 0 {
        var i :| 0 <= i < |before| && before[i].timeMs == t;
        assert all[i].timeMs == t;
      }
    }
  }

  // ---- Judging one test ----

  datatype TestStatus = Passed | OutputDiffers | RanTooLong | Crashed

  datatype Verdict = Pending | Accepted | WrongAnswer | TimeLimitExceeded | RuntimeError

  function VerdictFor(s: TestStatus): Verdict {
    match s
    case Passed => Accepted
    case OutputDiffers => WrongAnswer
    case RanTooLong => TimeLimitExceeded
    case Crashed => RuntimeError
  }

  /** Unicode white space, the characters strings.TrimSpace removes. */
  predicate IsSpace(c: char) {
    || '\t' <= c <= '\r'
    || c == ' '
    || c == '\U{0085}' || c == '\U{00A0}' || c == '\U{1680}'
    || '\U{2000}' <= c <= '\U{200A}'
    || c == '\U{2028}' || c == '\U{2029}' || c == '\U{202F}' || c == '\U{205F}' || c == '\U{3000}'
  }

  /** These 25 and no others. */
  lemma SpacesAre(c: char)
    ensures var spaces := {0x9, 0xA, 0xB, 0xC, 0xD, 0x20, 0x85, 0xA0, 0x1680, 0x2000, 0x2001, 0x2002, 0x2003, 0x2004,
                           0x2005, 0x2006, 0x2007, 0x2008, 0x2009, 0x200A, 0x2028, 0x2029, 0x202F, 0x205F, 0x3000};
      IsSpace(c) <==> c as int in spaces
  {
  }

  function TrimSpace(s: string): string { Trim(IsSpace, s) }

  /** The string is `core`, which neither begins nor ends with white space, with white space around it. */
  ghost predicate IsPadded(s: string, core: string) {
    Core(IsSpace, core) &&
    exists before, after :: AllBlank(IsSpace, before) && AllBlank(IsSpace, after) && s == before + core + after
  }

  /** The strings are equal but for white space around them. */
  ghost predicate SameUpToSpace(a: string, b: string) { exists core :: IsPadded(a, core) && IsPadded(b, core) }

  lemma TrimSpaceIsPadded(s: string)
    ensures IsPadded(s, TrimSpace(s))
  {
    var before, after := TrimSplits(IsSpace, s);
  }

  lemma PaddedTrims(s: string, core: string)
    requires IsPadded(s, core)
    ensures TrimSpace(s) == core
  {
    var before, after :| AllBlank(IsSpace, before) && AllBlank(IsSpace, after) && s == before + core + after;
    TrimIsTheCore(IsSpace, before, core, after);
  }

  function JudgeTest(result: TestCaseResult, expected: string): TestStatus {
    if result.status != "success" then
      if result.status == "timeout" then RanTooLong else Crashed
    else if TrimSpace(result.stdout) != TrimSpace(expected) then OutputDiffers
    else Passed
  }

  /** A test passes exactly when the run succeeded and the output is the expected one up to surrounding white space. */
  lemma PassedIff(result: TestCaseResult, expected: string)
    ensures JudgeTest(result, expected) == Passed <==>
            result.status == "success" && SameUpToSpace(result.stdout, expected)
  {
    if TrimSpace(result.stdout) == TrimSpace(expected) {
      TrimSpaceIsPadded(result.stdout);
      TrimSpaceIsPadded(expected);
    }
    if core :| IsPadded(result.stdout, core) && IsPadded(expected, core) {
      PaddedTrims(result.stdout, core);
      PaddedTrims(expected, core);
    }
  }

  // ---- The fold ----

  datatype TestCase = TestCase(id: nat, input: string, expected: string, sequenceNumber: int)

  datatype SubmissionResult = SubmissionResult(
    testCaseId: nat, sequenceNumber: int, input: string, expected: string, actual: string,
    timeMs: int, memoryKB: int, error: string, status: TestStatus)

  function Judged(tc: TestCase, r: TestCaseResult): SubmissionResult {
    SubmissionResult(tc.id, tc.sequenceNumber, tc.input, tc.expected, r.stdout, r.timeMs, r.memoryKB, r.stderr,
                     JudgeTest(r, tc.expected))
  }

  function JudgedAll(testCases: seq<TestCase>, results: seq<TestCaseResult>): (docs: seq<SubmissionResult>)
    requires |testCases| == |results|
  {
    seq(|results|, i requires 0 <= i < |results| => Judged(testCases[i], results[i]))
  }

  predicate Failed(doc: SubmissionResult) { doc.status != Passed }

  predicate IsFirstFailure(docs: seq<SubmissionResult>, k: nat) {
    k < |docs| && Failed(docs[k]) && forall j :: 0 <= j < k ==> !Failed(docs[j])
  }

  predicate AllPassed(docs: seq<SubmissionResult>) { forall i :: 0 <= i < |docs| ==> !Failed(docs[i]) }

  function PassedIndices(docs: seq<SubmissionResult>): set<int> {
    set i | 0 <= i < |docs| && !Failed(docs[i])
  }

  lemma PassedIndicesStep(docs: seq<SubmissionResult>, doc: SubmissionResult)
    ensures |PassedIndices(docs + [doc])| == |PassedIndices(docs)| + (if Failed(doc) then 0 else 1)
  {
    var more := if Failed(doc) then {} else {|docs|};
    assert PassedIndices(docs + [doc]) == PassedIndices(docs) + more;
  }

  lemma {:induction false} AllPassedIffAllCounted(docs: seq<SubmissionResult>)
    ensures |PassedIndices(docs)| <= |docs|
    ensures AllPassed(docs) <==> |PassedIndices(docs)| == |docs|
  {
    if docs != [] {
      var init, last := docs[..|docs| - 1], docs[|docs| - 1];
      assert docs == init + [last];
      AllPassedIffAllCounted(init);
      PassedIndicesStep(init, last);
      assert AllPassed(docs) <==> AllPassed(init) && !Failed(last);
    } else {
      assert PassedIndices(docs) == {};
    }
  }

  function TotalTime(docs: seq<SubmissionResult>): int {
    if docs == [] then 0 else TotalTime(docs[..|docs| - 1]) + docs[|docs| - 1].timeMs
  }

  function TotalMemory(docs: seq<SubmissionResult>): int {
    if docs == [] then 0 else TotalMemory(docs[..|docs| - 1]) + docs[|docs| - 1].memoryKB
  }

  /** The documents whose insertion succeeded; the program only logs a failed one. */
  function Kept(docs: seq<SubmissionResult>, saves: seq<bool>): seq<SubmissionResult>
    requires |docs| <= |saves|
  {
    if docs == [] then []
    else Kept(docs[..|docs| - 1], saves) + (if saves[|docs| - 1] then [docs[|docs| - 1]] else [])
  }

  /** What the judging loop leaves behind. */
  datatype Tally = Tally(verdict: Verdict, passed: int, firstFailed: Option<SubmissionResult>,
                         totalTimeMs: int, totalMemoryKB: int, saved: seq<SubmissionResult>)

  ghost predicate TallyOf(docs: seq<SubmissionResult>, saves: seq<bool>, t: Tally)
    requires |docs| <= |saves|
  {
    && (t.verdict == Accepted <==> AllPassed(docs))
    && (t.firstFailed == None <==> AllPassed(docs))
    && (t.firstFailed.Some? ==> exists k: nat ::
          IsFirstFailure(docs, k) && t.firstFailed == Some(docs[k]) && t.verdict == VerdictFor(docs[k].status))
    && t.passed == |PassedIndices(docs)|
    && t.totalTimeMs == TotalTime(docs)
    && t.totalMemoryKB == TotalMemory(docs)
    && t.saved == Kept(docs, saves)
  }

  /** The status of one test, and the final status if it is the first that did not pass. */
  method JudgeOne(tc: TestCase, result: TestCaseResult, soFar: Verdict)
    returns (doc: SubmissionResult, finalStatus: Verdict)
    ensures doc == Judged(tc, result)
    ensures finalStatus == if soFar == Accepted then VerdictFor(doc.status) else soFar
  {
    finalStatus := soFar;
    doc := SubmissionResult(tc.id, tc.sequenceNumber, tc.input, tc.expected, result.stdout, result.timeMs,
                            result.memoryKB, result.stderr, Passed);
    if result.status != "success" {
      if result.status == "timeout" {
        doc := doc.(status := RanTooLong);
        if finalStatus == Accepted {
          finalStatus := TimeLimitExceeded;
        }
      } else {
        doc := doc.(status := Crashed);
        if finalStatus == Accepted {
          finalStatus := RuntimeError;
        }
      }
    } else if TrimSpace(result.stdout) != TrimSpace(tc.expected) {
      doc := doc.(status := OutputDiffers);
      if finalStatus == Accepted {
        finalStatus := WrongAnswer;
      }
    }
  }

  /** The second loop of processSubmission. `saves[i]` says whether the insertion of result `i` succeeds. */
  method JudgeResults(testCases: seq<TestCase>, results: seq<TestCaseResult>, saves: seq<bool>) returns (t: Tally)
    requires |testCases| == |results| == |saves|
    ensures TallyOf(JudgedAll(testCases, results), saves, t)
  {
    var finalStatus, testCasesPassed, firstFailedResult := Accepted, 0, None;
    var totalExecutionTimeMs, totalMemoryUsedKB, saved := 0, 0, [];
    ghost var docs := JudgedAll(testCases, results);
    assert docs[..0] == [];
    for i := 0 to |results|
      invariant TallyOf(docs[..i], saves,
                        Tally(finalStatus, testCasesPassed, firstFailedResult,
                              totalExecutionTimeMs, totalMemoryUsedKB, saved))
    {
      ghost var was := Tally(finalStatus, testCasesPassed, firstFailedResult,
                             totalExecutionTimeMs, totalMemoryUsedKB, saved);
      var doc;
      doc, finalStatus := JudgeOne(testCases[i], results[i], finalStatus);
      if doc.status == Passed {
        testCasesPassed := testCasesPassed + 1;
      }
      totalExecutionTimeMs := totalExecutionTimeMs + results[i].timeMs;
      totalMemoryUsedKB := totalMemoryUsedKB + results[i].memoryKB;
      if saves[i] {
        saved := saved + [doc];
      }
      if doc.status != Passed && firstFailedResult.None? {
        firstFailedResult := Some(doc);
      }
      assert doc == docs[i];
      assert docs[..i + 1] == docs[..i] + [doc];
      TallyStep(docs[..i], saves, was, doc,
                Tally(finalStatus, testCasesPassed, firstFailedResult, totalExecutionTimeMs, totalMemoryUsedKB, saved));
    }
    assert docs[..|results|] == docs;
    t := Tally(finalStatus, testCasesPassed, firstFailedResult, totalExecutionTimeMs, totalMemoryUsedKB, saved);
  }

  lemma FirstFailedStep(docs: seq<SubmissionResult>, doc: SubmissionResult, k: nat)
    ensures IsFirstFailure(docs, k) ==> IsFirstFailure(docs + [doc], k)
    ensures AllPassed(docs) && Failed(doc) ==> IsFirstFailure(docs + [doc], |docs|)
    ensures AllPassed(docs + [doc]) <==> AllPassed(docs) && !Failed(doc)
  {
    var all := docs + [doc];
    assert forall j :: 0 <= j < |docs| ==> all[j] == docs[j];
    assert all[|docs|] == doc;
  }

  lemma TotalsStep(docs: seq<SubmissionResult>, saves: seq<bool>, doc: SubmissionResult)
    requires |docs| < |saves|
    ensures TotalTime(docs + [doc]) == TotalTime(docs) + doc.timeMs
    ensures TotalMemory(docs + [doc]) == TotalMemory(docs) + doc.memoryKB
    ensures Kept(docs + [doc], saves) == Kept(docs, saves) + if saves[|docs|] then [doc] else []
  {
    assert (docs + [doc])[..|docs|] == docs;
  }

  lemma TallyStep(docs: seq<SubmissionResult>, saves: seq<bool>, t: Tally, doc: SubmissionResult, u: Tally)
    requires |docs| < |saves| && TallyOf(docs, saves, t)
    requires u.verdict == if t.verdict == Accepted then VerdictFor(doc.status) else t.verdict
    requires u.passed == t.passed + if Failed(doc) then 0 else 1
    requires u.firstFailed == if Failed(doc) && t.firstFailed.None? then Some(doc) else t.firstFailed
    requires u.totalTimeMs == t.totalTimeMs + doc.timeMs && u.totalMemoryKB == t.totalMemoryKB + doc.memoryKB
    requires u.saved == t.saved + if saves[|docs|] then [doc] else []
    ensures TallyOf(docs + [doc], saves, u)
  {
    var all := docs + [doc];
    TotalsStep(docs, saves, doc);
    PassedIndicesStep(docs, doc);
    if t.firstFailed.Some? {
      var k: nat :|
        IsFirstFailure(docs, k) && t.firstFailed == Some(docs[k]) && t.verdict == VerdictFor(docs[k].status);
      FirstFailedStep(docs, doc, k);
      assert all[k] == docs[k];
      assert IsFirstFailure(all, k) && u.firstFailed == Some(all[k]) && u.verdict == VerdictFor(all[k].status);
    } else {
      FirstFailedStep(docs, doc, |docs|);
    }
  }

  // ---- The verdict ----

  lemma {:induction false} FirstFailureExists(docs: seq<SubmissionResult>) returns (k: nat)
    requires !AllPassed(docs)
    ensures IsFirstFailure(docs, k)
  {
    var init := docs[..|docs| - 1];
    if AllPassed(init) {
      k := |docs| - 1;
    } else {
      k := FirstFailureExists(init);
    }
  }

  /** The whole meaning of the fold: the verdict is ACCEPTED exactly when every test passed, exactly when as many
      passed as there are, exactly when no first failure is kept; otherwise the verdict and the kept result are those
      of the failed test with the least index. */
  lemma VerdictMeans(docs: seq<SubmissionResult>, saves: seq<bool>, t: Tally)
    requires |docs| <= |saves| && TallyOf(docs, saves, t)
    ensures t.verdict == Accepted <==> AllPassed(docs)
    ensures t.verdict == Accepted <==> t.passed == |docs|
    ensures t.verdict == Accepted <==> t.firstFailed == None
    ensures forall k: nat :: IsFirstFailure(docs, k) ==>
      t.verdict == VerdictFor(docs[k].status) && t.firstFailed == Some(docs[k])
  {
    AllPassedIffAllCounted(docs);
  }

  /** The statuses that the executors of this repository report, and the default of the result-building loop. The
      judge looks for "timeout", which none of them sends. */
  const EXECUTOR_STATUSES := {"success", "runtime_error", "compilation_error", "time_limit_exceeded", "error"}

  predicate FromExecutors(outcome: Outcome) { outcome.Ran? ==> outcome.status in EXECUTOR_STATUSES }

  /** The verdict is TIME_LIMIT_EXCEEDED exactly when the first failed test came back with the status "timeout". */
  lemma TimeLimitVerdictIff(testCases: seq<TestCase>, results: seq<TestCaseResult>, saves: seq<bool>, t: Tally)
    requires |testCases| == |results| == |saves|
    requires TallyOf(JudgedAll(testCases, results), saves, t)
    ensures t.verdict == TimeLimitExceeded <==>
            exists k: nat :: IsFirstFailure(JudgedAll(testCases, results), k) && results[k].status == "timeout"
  {
    var docs := JudgedAll(testCases, results);
    VerdictMeans(docs, saves, t);
    if !AllPassed(docs) {
      var k := FirstFailureExists(docs);
      assert docs[k] == Judged(testCases[k], results[k]);
    }
  }

  /** So with these executors no submission ever gets TIME_LIMIT_EXCEEDED; a first failure that ran out of time is
      recorded as RUNTIME_ERROR. */
  lemma NoTimeLimitVerdict(outcomes: seq<Outcome>, testCases: seq<TestCase>, saves: seq<bool>, t: Tally)
    requires |outcomes| == |testCases| == |saves|
    requires forall i :: 0 <= i < |outcomes| ==> FromExecutors(outcomes[i])
    requires var results := seq(|outcomes|, i requires 0 <= i < |outcomes| => ResultOf(outcomes[i]));
             TallyOf(JudgedAll(testCases, results), saves, t)
    ensures t.verdict != TimeLimitExceeded
    ensures forall k: nat :: k < |outcomes| && outcomes[k].Ran? && outcomes[k].status == "time_limit_exceeded"
              && (forall j :: 0 <= j < k ==> JudgeTest(ResultOf(outcomes[j]), testCases[j].expected) == Passed)
              ==> t.verdict == RuntimeError
  {
    var results := seq(|outcomes|, i requires 0 <= i < |outcomes| => ResultOf(outcomes[i]));
    var docs := JudgedAll(testCases, results);
    forall k | 0 <= k < |outcomes|
      ensures results[k].status != "timeout"
      ensures docs[k].status == JudgeTest(ResultOf(outcomes[k]), testCases[k].expected)
    {
      assert FromExecutors(outcomes[k]);
    }
    TimeLimitVerdictIff(testCases, results, saves, t);
    VerdictMeans(docs, saves, t);
    forall k: nat | k < |outcomes| && outcomes[k].Ran? && outcomes[k].status == "time_limit_exceeded"
      && forall j :: 0 <= j < k ==> JudgeTest(ResultOf(outcomes[j]), testCases[j].expected) == Passed
      ensures t.verdict == RuntimeError
    {
      assert IsFirstFailure(docs, k);
    }
  }

  // ---- Averages ----

  lemma {:induction false} TotalTimeBounds(docs: seq<SubmissionResult>, low: int, high: int)
    requires forall i :: 0 <= i < |docs| ==> low <= docs[i].timeMs <= high
    ensures low * |docs| <= TotalTime(docs) <= high * |docs|
  {
    if docs != [] {
      var n := |docs| - 1;
      TotalTimeBounds(docs[..n], low, high);
      assert low * |docs| == low * n + low && high * |docs| == high * n + high;
    }
  }

  /** Across the two loops: the stored average lies between any lower bound of the tests' times and the maximum the
      first loop reported, and for a non-negative total it is the total divided and rounded down. */
  lemma AverageWithinTimes(testCases: seq<TestCase>, results: seq<TestCaseResult>, largest: int, low: int)
    requires |testCases| == |results| > 0
    requires IsLargestTime(results, largest)
    requires forall i :: 0 <= i < |results| ==> low <= results[i].timeMs
    ensures var total := TotalTime(JudgedAll(testCases, results));
      var average := TruncatedDiv(total, |testCases|);
      && low <= average <= largest
      && (total >= 0 ==> average * |testCases| <= total < (average + 1) * |testCases|)
  {
    var docs := JudgedAll(testCases, results);
    TotalTimeBounds(docs, low, largest);
    TruncatedDivBounds(TotalTime(docs), |testCases|, low, largest);
  }

  // ---- Looking the first failure up again ----

  /** What the details query may return: a stored result that did not pass, with the least sequence number. */
  predicate IsAnswer(stored: seq<SubmissionResult>, r: SubmissionResult) {
    && r in stored && Failed(r)
    && forall x :: x in stored && Failed(x) ==> r.sequenceNumber <= x.sequenceNumber
  }

  lemma {:induction false} AnswerExists(stored: seq<SubmissionResult>) returns (r: SubmissionResult)
    requires exists x :: x in stored && Failed(x)
    ensures IsAnswer(stored, r)
  {
    var init, last := stored[..|stored| - 1], stored[|stored| - 1];
    assert forall x :: x in stored <==> x in init || x == last;
    if x :| x in init && Failed(x) {
      r := AnswerExists(init);
      if Failed(last) && last.sequenceNumber < r.sequenceNumber {
        r := last;
      }
    } else {
      r := last;
    }
  }

  lemma {:induction false} KeptHas(docs: seq<SubmissionResult>, saves: seq<bool>, r: SubmissionResult)
    requires |docs| <= |saves|
    ensures r in Kept(docs, saves) <==> exists i :: 0 <= i < |docs| && saves[i] && docs[i] == r
  {
    if docs != [] {
      var init := docs[..|docs| - 1];
      KeptHas(init, saves, r);
      if i :| 0 <= i < |docs| && saves[i] && docs[i] == r && i < |init| {
        assert init[i] == r;
      }
    }
  }

  /** The test cases come from the database ordered by sequence number, and their ids are distinct. */
  predicate InSequence(docs: seq<SubmissionResult>) {
    && (forall i, j :: 0 <= i < j < |docs| ==> docs[i].sequenceNumber <= docs[j].sequenceNumber)
    && (forall i, j :: 0 <= i < j < |docs| ==> docs[i].testCaseId != docs[j].testCaseId)
  }

  /** No other stored failure has the sequence number of result `k`. */
  predicate AloneAtItsNumber(docs: seq<SubmissionResult>, saves: seq<bool>, k: nat)
    requires |docs| <= |saves| && k < |docs|
  {
    forall j :: 0 <= j < |docs| && j != k && saves[j] && Failed(docs[j]) ==>
      docs[j].sequenceNumber != docs[k].sequenceNumber
  }

  lemma StoredFailureTiedWithFirst(docs: seq<SubmissionResult>, saves: seq<bool>, k: nat, j: nat)
    requires |docs| <= |saves| && InSequence(docs) && IsFirstFailure(docs, k)
    requires j < |docs| && saves[j] && Failed(docs[j]) && docs[j].sequenceNumber == docs[k].sequenceNumber
    ensures IsAnswer(Kept(docs, saves), docs[j])
    ensures j != k ==> docs[j] != docs[k]
  {
    KeptHas(docs, saves, docs[j]);
    forall x | x in Kept(docs, saves) && Failed(x)
      ensures docs[j].sequenceNumber <= x.sequenceNumber
    {
      KeptHas(docs, saves, x);
      var i :| 0 <= i < |docs| && saves[i] && docs[i] == x;
      assert k <= i;
      assert docs[k].sequenceNumber <= docs[i].sequenceNumber;
    }
  }

  lemma UnstoredIsNoAnswer(docs: seq<SubmissionResult>, saves: seq<bool>, k: nat)
    requires |docs| <= |saves| && InSequence(docs) && k < |docs| && !saves[k]
    ensures !IsAnswer(Kept(docs, saves), docs[k])
  {
    KeptHas(docs, saves, docs[k]);
  }

  lemma OnlyAnswer(docs: seq<SubmissionResult>, saves: seq<bool>, k: nat, r: SubmissionResult)
    requires |docs| <= |saves| && InSequence(docs) && IsFirstFailure(docs, k)
    requires saves[k] && AloneAtItsNumber(docs, saves, k)
    requires IsAnswer(Kept(docs, saves), r)
    ensures r == docs[k]
  {
    KeptHas(docs, saves, docs[k]);
    KeptHas(docs, saves, r);
    var i :| 0 <= i < |docs| && saves[i] && docs[i] == r;
    assert docs[k].sequenceNumber <= r.sequenceNumber;
  }

  /** The query can return `r` and nothing else. */
  ghost predicate MustAnswer(stored: seq<SubmissionResult>, r: SubmissionResult) {
    IsAnswer(stored, r) && forall x :: IsAnswer(stored, x) ==> x == r
  }

  /** The details query finds the result that the judging loop kept, and can find no other, if and only if that
      result was stored and is alone at its sequence number. */
  lemma LookupAgreesIff(docs: seq<SubmissionResult>, saves: seq<bool>, k: nat)
    requires |docs| <= |saves| && InSequence(docs) && IsFirstFailure(docs, k)
    ensures MustAnswer(Kept(docs, saves), docs[k]) <==> saves[k] && AloneAtItsNumber(docs, saves, k)
  {
    if !saves[k] {
      UnstoredIsNoAnswer(docs, saves, k);
    } else if !AloneAtItsNumber(docs, saves, k) {
      var j: nat :|
        j < |docs| && j != k && saves[j] && Failed(docs[j]) && docs[j].sequenceNumber == docs[k].sequenceNumber;
      StoredFailureTiedWithFirst(docs, saves, k, j);
    } else {
      StoredFailureTiedWithFirst(docs, saves, k, k);
      forall r | IsAnswer(Kept(docs, saves), r)
        ensures r == docs[k]
      {
        OnlyAnswer(docs, saves, k, r);
      }
    }
  }

  /** Whatever was stored, the details query comes back empty if and only if no failed result is among it; so with a
      failure but nothing of it stored the details show none. */
  lemma NothingFoundIff(docs: seq<SubmissionResult>, saves: seq<bool>)
    requires |docs| <= |saves|
    ensures (forall r :: !IsAnswer(Kept(docs, saves), r)) <==>
            (forall i :: 0 <= i < |docs| && saves[i] ==> !Failed(docs[i]))
  {
    if i :| 0 <= i < |docs| && saves[i] && Failed(docs[i]) {
      KeptHas(docs, saves, docs[i]);
      var r := AnswerExists(Kept(docs, saves));
    } else {
      forall r
        ensures !IsAnswer(Kept(docs, saves), r)
      {
        KeptHas(docs, saves, r);
      }
    }
  }

  /** With every result stored and distinct sequence numbers the lookup and the fold name the same result. */
  lemma LookupAgrees(docs: seq<SubmissionResult>, saves: seq<bool>, t: Tally, r: SubmissionResult)
    requires |docs| == |saves| && TallyOf(docs, saves, t) && InSequence(docs)
    requires forall i :: 0 <= i < |docs| ==> saves[i]
    requires forall i, j :: 0 <= i < j < |docs| ==> docs[i].sequenceNumber != docs[j].sequenceNumber
    ensures IsAnswer(t.saved, r) <==> t.firstFailed == Some(r)
  {
    VerdictMeans(docs, saves, t);
    if AllPassed(docs) {
      KeptHas(docs, saves, r);
    } else {
      var k := FirstFailureExists(docs);
      forall j | 0 <= j < |docs| && j != k
        ensures docs[j].sequenceNumber != docs[k].sequenceNumber
      {
        assert j < k || k < j;
      }
      LookupAgreesIff(docs, saves, k);
      assert AloneAtItsNumber(docs, saves, k);
      assert t.firstFailed == Some(docs[k]);
    }
  }

  // ---- A submission from queue to record ----

  /** What processSubmission finds before it runs anything, and whether the update of the record finds the submission
      again and is written; None or false is a failure. */
  datatype Setting = Setting(
    submissionFound: bool, problemFound: bool, testCases: Option<seq<TestCase>>, codeRead: bool, artifactsFound: bool,
    updated: bool)

  function ResultsOf(execute: (nat, string) -> Outcome, testCases: seq<TestCase>): seq<TestCaseResult> {
    seq(|testCases|, i requires 0 <= i < |testCases| => ResultOf(execute(i, testCases[i].input)))
  }

  // ---- From what the executor gives to what the user is told ----

  /** The executor ran the code on a test to a success, with the expected output up to white space around it. */
  ghost predicate Solves(o: Outcome, expected: string) {
    o.Ran? && o.status == "success" && SameUpToSpace(o.output, expected)
  }

  /** The stored result of a test, field by field: the output goes to the actual output after a success and to the error
      otherwise; the message of a failed call goes nowhere. */
  ghost predicate Documents(doc: SubmissionResult, tc: TestCase, o: Outcome) {
    && doc.testCaseId == tc.id && doc.sequenceNumber == tc.sequenceNumber
    && doc.input == tc.input && doc.expected == tc.expected
    && doc.actual == (if o.Ran? && o.status == "success" then o.output else "")
    && doc.error == (if o.Ran? && o.status != "success" then o.output else "")
    && doc.timeMs == (if o.Ran? then o.timeMs else 0)
    && doc.memoryKB == (if o.Ran? then o.memoryKB else 0)
    && doc.status == (if Solves(o, tc.expected) then Passed
                      else if o.Ran? && o.status == "success" then OutputDiffers
                      else if o.Ran? && o.status == "timeout" then RanTooLong
                      else Crashed)
  }

  ghost predicate DocumentsAll(
    docs: seq<SubmissionResult>, testCases: seq<TestCase>, execute: (nat, string) -> Outcome)
  {
    |docs| == |testCases| &&
    forall i :: 0 <= i < |docs| ==> Documents(docs[i], testCases[i], execute(i, testCases[i].input))
  }

  lemma JudgedIsDocumented(tc: TestCase, o: Outcome)
    ensures Documents(Judged(tc, ResultOf(o)), tc, o)
  {
    PassedIff(ResultOf(o), tc.expected);
  }

  lemma AllJudgedAreDocumented(testCases: seq<TestCase>, execute: (nat, string) -> Outcome)
    ensures DocumentsAll(JudgedAll(testCases, ResultsOf(execute, testCases)), testCases, execute)
  {
    forall i | 0 <= i < |testCases|
      ensures var o := execute(i, testCases[i].input);
        Documents(JudgedAll(testCases, ResultsOf(execute, testCases))[i], testCases[i], o)
    {
      JudgedIsDocumented(testCases[i], execute(i, testCases[i].input));
    }
  }

  /** Test `k` is not solved and every one before it is. */
  ghost predicate FirstUnsolved(testCases: seq<TestCase>, execute: (nat, string) -> Outcome, k: nat) {
    && k < |testCases| && !Solves(execute(k, testCases[k].input), testCases[k].expected)
    && forall j :: 0 <= j < k ==> Solves(execute(j, testCases[j].input), testCases[j].expected)
  }

  ghost function SolvedIndices(testCases: seq<TestCase>, execute: (nat, string) -> Outcome): set<int> {
    set i | 0 <= i < |testCases| && Solves(execute(i, testCases[i].input), testCases[i].expected)
  }

  /** What the judge owes for its tests, from what the executor gave: ACCEPTED if and only if every test is solved, else
      the verdict and the details of the first that is not; the number solved; the averages. */
  ghost predicate Owes(testCases: seq<TestCase>, execute: (nat, string) -> Outcome, verdict: Verdict, timeMs: int,
                       memoryKB: int, passed: int, total: int, failed: Option<SubmissionResult>)
    requires testCases != []
  {
    && (verdict == Accepted <==>
          forall i :: 0 <= i < |testCases| ==> Solves(execute(i, testCases[i].input), testCases[i].expected))
    && (verdict == Accepted <==> failed == None)
    && (forall k: nat :: FirstUnsolved(testCases, execute, k) ==>
          && failed.Some? && Documents(failed.value, testCases[k], execute(k, testCases[k].input))
          && verdict == match execute(k, testCases[k].input)
                        case CallFailed(_) => RuntimeError
                        case NoResult => RuntimeError
                        case Ran(_, status, _, _) =>
                          if status == "success" then WrongAnswer
                          else if status == "timeout" then TimeLimitExceeded
                          else RuntimeError)
    && total == |testCases| && passed == |SolvedIndices(testCases, execute)|
    && (forall docs :: DocumentsAll(docs, testCases, execute) ==>
          && timeMs == TruncatedDiv(TotalTime(docs), |testCases|)
          && memoryKB == TruncatedDiv(TotalMemory(docs), |testCases|))
  }

  lemma DocumentsAreUnique(
      docs: seq<SubmissionResult>, others: seq<SubmissionResult>, testCases: seq<TestCase>,
      execute: (nat, string) -> Outcome)
    requires DocumentsAll(docs, testCases, execute) && DocumentsAll(others, testCases, execute)
    ensures docs == others
  {
    forall i | 0 <= i < |docs|
      ensures docs[i] == others[i]
    {
      assert Documents(docs[i], testCases[i], execute(i, testCases[i].input));
      assert Documents(others[i], testCases[i], execute(i, testCases[i].input));
    }
  }

  lemma FailedIffUnsolved(docs: seq<SubmissionResult>, testCases: seq<TestCase>, execute: (nat, string) -> Outcome)
    requires DocumentsAll(docs, testCases, execute)
    ensures forall i :: 0 <= i < |docs| ==>
      (Failed(docs[i]) <==> !Solves(execute(i, testCases[i].input), testCases[i].expected))
    ensures PassedIndices(docs) == SolvedIndices(testCases, execute)
    ensures forall k: nat :: FirstUnsolved(testCases, execute, k) <==> IsFirstFailure(docs, k)
  {
    forall i | 0 <= i < |docs|
      ensures Failed(docs[i]) <==> !Solves(execute(i, testCases[i].input), testCases[i].expected)
    {
      assert Documents(docs[i], testCases[i], execute(i, testCases[i].input));
    }
  }

  lemma TallyOwes(testCases: seq<TestCase>, execute: (nat, string) -> Outcome, docs: seq<SubmissionResult>,
                  saves: seq<bool>, t: Tally)
    requires testCases != [] && |docs| <= |saves| && DocumentsAll(docs, testCases, execute) && TallyOf(docs, saves, t)
    ensures Owes(testCases, execute, t.verdict, TruncatedDiv(t.totalTimeMs, |testCases|),
                 TruncatedDiv(t.totalMemoryKB, |testCases|), t.passed, |testCases|, t.firstFailed)
  {
    VerdictMeans(docs, saves, t);
    FailedIffUnsolved(docs, testCases, execute);
    forall others | DocumentsAll(others, testCases, execute)
      ensures others == docs
    {
      DocumentsAreUnique(others, docs, testCases, execute);
    }
    forall k: nat | FirstUnsolved(testCases, execute, k)
      ensures Documents(docs[k], testCases[k], execute(k, testCases[k].input)) && t.firstFailed == Some(docs[k])
      ensures t.verdict == VerdictFor(docs[k].status)
    {
      assert IsFirstFailure(docs, k);
    }
  }

  /** The submission's own document and its documents in submission_results. */
  class Submission {
    var status: Verdict
    var executionTimeMs: int
    var memoryUsedKB: int
    var testCasesPassed: int
    var testCasesTotal: int
    var failedTestCase: Option<SubmissionResult>
    var results: seq<SubmissionResult>

    constructor ()
      ensures status == Pending && results == [] && failedTestCase == None
    {
      status, executionTimeMs, memoryUsedKB, testCasesPassed, testCasesTotal := Pending, 0, 0, 0, 0;
      failedTestCase, results := None, [];
    }

    /** updateSubmissionStatus: when the submission is not found again nothing is written, and the failed test's details
        are written only when there is one. */
    method UpdateStatus(updated: bool, verdict: Verdict, timeMs: int, memoryKB: int, passed: int, total: int,
                        failed: Option<SubmissionResult>)
      modifies this
      ensures updated ==>
        && status == verdict && executionTimeMs == timeMs && memoryUsedKB == memoryKB
        && testCasesPassed == passed && testCasesTotal == total
        && failedTestCase == if failed.Some? then failed else old(failedTestCase)
      ensures !updated ==> Record() == old(Record())
      ensures results == old(results)
    {
      if !updated {
        return;
      }
      status, executionTimeMs, memoryUsedKB := verdict, timeMs, memoryKB;
      testCasesPassed, testCasesTotal := passed, total;
      if failed.Some? {
        failedTestCase := failed;
      }
    }

    /** The fields of the submission's own document. */
    ghost function Record(): (Verdict, int, int, int, int, Option<SubmissionResult>)
      reads this
    {
      (status, executionTimeMs, memoryUsedKB, testCasesPassed, testCasesTotal, failedTestCase)
    }

    method Process(s: Setting, execute: (nat, string) -> Outcome, saves: seq<bool>)
      requires s.testCases.Some? ==> |saves| == |s.testCases.value|
      modifies this
      ensures !s.updated ==> Record() == old(Record())
      ensures !s.submissionFound || !s.problemFound || s.testCases.None? ==>
        results == old(results) && (s.updated ==> Record() == (RuntimeError, 0, 0, 0, 0, old(failedTestCase)))
      ensures s.submissionFound && s.problemFound && s.testCases == Some([]) ==>
        results == old(results) && (s.updated ==> Record() == (Accepted, 0, 0, 0, 0, old(failedTestCase)))
      ensures s.submissionFound && s.problemFound && s.testCases.Some? && s.testCases.value != [] ==>
        if !s.codeRead || !s.artifactsFound then
          results == old(results) && (s.updated ==> Record() == (RuntimeError, 0, 0, 0, 0, old(failedTestCase)))
        else
          && (exists docs ::
                DocumentsAll(docs, s.testCases.value, execute) && results == old(results) + Kept(docs, saves))
          && (s.updated ==>
                exists failed ::
                  && Owes(s.testCases.value, execute, status, executionTimeMs, memoryUsedKB, testCasesPassed,
                          testCasesTotal, failed)
                  && failedTestCase == if failed.Some? then failed else old(failedTestCase))
    {
      if !s.submissionFound || !s.problemFound || s.testCases.None? {
        UpdateStatus(s.updated, RuntimeError, 0, 0, 0, 0, None);
        return;
      }
      var testCases := s.testCases.value;
      if |testCases| == 0 {
        UpdateStatus(s.updated, Accepted, 0, 0, 0, 0, None);
        return;
      }
      if !s.codeRead || !s.artifactsFound {
        UpdateStatus(s.updated, RuntimeError, 0, 0, 0, 0, None);
        return;
      }
      var inputs := [];
      for i := 0 to |testCases|
        invariant inputs == seq(i, j requires 0 <= j < i => testCases[j].input)
      {
        inputs := inputs + [testCases[i].input];
      }
      var run := RunCodeAgainstTestCases(execute, inputs);
      assert run.results == ResultsOf(execute, testCases);
      var t := JudgeResults(testCases, run.results, saves);
      ghost var docs := JudgedAll(testCases, run.results);
      AllJudgedAreDocumented(testCases, execute);
      TallyOwes(testCases, execute, docs, saves, t);
      results := results + t.saved;
      UpdateStatus(s.updated, t.verdict,
                   TruncatedDiv(t.totalTimeMs, |testCases|), TruncatedDiv(t.totalMemoryKB, |testCases|),
                   t.passed, |testCases|, t.firstFailed);
    }

    /** The lookup of GetSubmissionDetailsHandler. */
    method FirstFailedResult() returns (found: Option<SubmissionResult>)
      ensures found.Some? ==> status != Accepted && IsAnswer(results, found.value)
      ensures found.Some? ==> found.value in results && found.value.status != Passed
      ensures found.Some? ==>
        forall r :: r in results && r.status != Passed ==> found.value.sequenceNumber <= r.sequenceNumber
      ensures found.None? <==> status == Accepted || forall r :: r in results ==> r.status == Passed
    {
      found := None;
      if status != Accepted {
        for i := 0 to |results|
          invariant found.Some? ==> IsAnswer(results[..i], found.value)
          invariant found.None? ==> forall r :: r in results[..i] ==> !Failed(r)
        {
          assert results[..i + 1] == results[..i] + [results[i]];
          if Failed(results[i]) && (found.None? || results[i].sequenceNumber < found.value.sequenceNumber) {
            found := Some(results[i]);
          }
        }
        assert results[..|results|] == results;
      }
    }
  }
}
