/**
 * The assertion engine: what one test case produces when it runs.
 *
 * A test body is foreign code in the header; here it is the sequence of
 * assertion and FAIL statements it executes, each already evaluated to a
 * boolean. The `ASSERT_*` macros return from the body at the first false
 * condition, so the outcome records that one failure and nothing after it.
 */
module Assertions {

  /** The header's `TestResult` record. The C message pointer starts out
      NULL; here that is the empty string. */
  datatype TestResult = TestResult(successful: bool, message: string, lineNum: int)

  /** `TestResult out = {.successful=true}`: the other fields are zero. */
  const InitialResult := TestResult(true, "", 0)

  /** One statement of a test body that touches the result.
      `Check` is an `ASSERT_*` macro: `assert_condition` followed by
      `return` when it reports a failure. `Fail` is the `FAIL` macro,
      which marks the result failed and sets its message but neither sets
      the line nor leaves the body. A `FAIL` under an `if` whose condition
      is false still writes its message in C; that write is not a step. */
  datatype Step =
    | Check(condition: bool, line: int, message: string)
    | Fail(message: string)

  predicate IsFailingCheck(s: Step) {
    s.Check? && !s.condition
  }

  // ---------------------------------------------------------------------
  // The assertion macros, as constructors of steps
  // ---------------------------------------------------------------------

  /** `ASSERT_TRUE(BOOL)` */
  function AssertTrue(b: bool, line: int, text: string): Step {
    Check(b, line, "ASSERT_TRUE(" + text + ")")
  }

  /** `ASSERT_FALSE(BOOL)` */
  function AssertFalse(b: bool, line: int, text: string): Step {
    Check(!b, line, "ASSERT_FALSE(" + text + ")")
  }

  /** `ASSERT_EQUAL(A, B)` */
  function AssertEqual<T(==)>(a: T, b: T, line: int, textA: string, textB: string): Step {
    Check(a == b, line, "ASSERT_EQUAL(" + textA + ", " + textB + ")")
  }

  /** `ASSERT_NOT_EQUAL(A, B)` */
  function AssertNotEqual<T(==)>(a: T, b: T, line: int, textA: string, textB: string): Step {
    Check(a != b, line, "ASSERT_NOT_EQUAL(" + textA + ", " + textB + ")")
  }

  /** The condition `ASSERT_ALMOST_EQUAL` evaluates, on exact reals. */
  predicate AlmostEqual(a: real, b: real, eps: real) {
    a - b < eps && b - a < eps
  }

  function Abs(x: real): real {
    if x < 0.0 then -x else x
  }

  /** The two one-sided tests are a strict bound on the distance. */
  lemma AlmostEqualIsStrictDistance(a: real, b: real, eps: real)
    ensures AlmostEqual(a, b, eps) <==> Abs(a - b) < eps
    ensures Abs(a - b) == eps ==> !AlmostEqual(a, b, eps)
  {
  }

  /** `ASSERT_ALMOST_EQUAL(A, B, EPS)` */
  function AssertAlmostEqual(a: real, b: real, eps: real, line: int,
                             textA: string, textB: string, textEps: string): (s: Step)
    ensures s.Check? && s.line == line
    ensures IsFailingCheck(s) <==> Abs(a - b) >= eps
    ensures s.message == "ASSERT_ALMOST_EQUAL(" + textA + ", " + textB + ", " + textEps + ")"
  {
    AlmostEqualIsStrictDistance(a, b, eps);
    Check(AlmostEqual(a, b, eps), line,
          "ASSERT_ALMOST_EQUAL(" + textA + ", " + textB + ", " + textEps + ")")
  }

  // ---------------------------------------------------------------------
  // Specification: the outcome of a body
  // ---------------------------------------------------------------------

  /** Runs the remaining `steps` against the current result `r`. A run
      that ends successful has left `r` exactly as it was. */
  function Exec(steps: seq<Step>, r: TestResult): (e: TestResult)
    ensures e.successful ==> e == r
    decreases |steps|
  {
    if steps == [] then r
    else match steps[0]
      case Check(c, l, m) => if c then Exec(steps[1..], r) else TestResult(false, m, l)
      case Fail(m) => Exec(steps[1..], r.(successful := false, message := m))
  }

  /** What the wrapper function the `TEST` macro generates returns: a
      successful result is the untouched initial one. */
  function Outcome(body: seq<Step>): (o: TestResult)
    ensures o.successful ==> o == InitialResult
  {
    Exec(body, InitialResult)
  }

  lemma {:induction false} ExecSuccessful(steps: seq<Step>, r: TestResult)
    ensures Exec(steps, r).successful <==>
              r.successful && forall i :: 0 <= i < |steps| ==> steps[i].Check? && steps[i].condition
    decreases |steps|
  {
    if steps != [] {
      var rest := steps[1..];
      assert forall i :: 0 <= i < |rest| ==> rest[i] == steps[i + 1];
      match steps[0] {
        case Check(c, l, m) =>
          if c {
            ExecSuccessful(rest, r);
            assert forall i :: 1 <= i < |steps| ==> steps[i] == rest[i - 1];
          }
        case Fail(m) =>
          ExecSuccessful(rest, r.(successful := false, message := m));
      }
    }
  }

  /** A test passes iff every statement it executes is an assertion that
      holds: one false assertion or one `FAIL` anywhere makes it fail. */
  lemma OutcomeSuccessIff(body: seq<Step>)
    ensures Outcome(body).successful <==>
              forall i :: 0 <= i < |body| ==> body[i].Check? && body[i].condition
  {
    ExecSuccessful(body, InitialResult);
  }

  lemma {:induction false} ExecFirstFailure(steps: seq<Step>, r: TestResult, k: nat)
    requires k < |steps| && IsFailingCheck(steps[k])
    requires forall i :: 0 <= i < k ==> !IsFailingCheck(steps[i])
    ensures Exec(steps, r) == TestResult(false, steps[k].message, steps[k].line)
    decreases k
  {
    if k > 0 {
      var r' := if steps[0].Fail? then r.(successful := false, message := steps[0].message) else r;
      assert !IsFailingCheck(steps[0]);
      ExecFirstFailure(steps[1..], r', k - 1);
    }
  }

  /** Fail fast: the outcome of a body whose first false assertion is at
      index `k` carries that assertion's line and message, whatever came
      before it and whatever follows. */
  lemma OutcomeFirstFailure(body: seq<Step>, k: nat)
    requires k < |body| && IsFailingCheck(body[k])
    requires forall i :: 0 <= i < k ==> !IsFailingCheck(body[i])
    ensures Outcome(body) == TestResult(false, body[k].message, body[k].line)
  {
    ExecFirstFailure(body, InitialResult, k);
  }

  /** The statements after a false assertion never run. */
  lemma OutcomeIgnoresRest(before: seq<Step>, failing: Step, after: seq<Step>)
    requires IsFailingCheck(failing)
    ensures Outcome(before + [failing] + after) == Outcome(before + [failing])
  {
    var k := 0;
    while k < |before| && !IsFailingCheck(before[k])
      invariant 0 <= k <= |before|
      invariant forall i :: 0 <= i < k ==> !IsFailingCheck(before[i])
    {
      k := k + 1;
    }
    var whole, cut := before + [failing] + after, before + [failing];
    assert whole[k] == cut[k];
    OutcomeFirstFailure(whole, k);
    OutcomeFirstFailure(cut, k);
  }

  lemma {:induction false} ExecWithoutFailingCheck(steps: seq<Step>, r: TestResult)
    requires forall i :: 0 <= i < |steps| ==> !IsFailingCheck(steps[i])
    ensures Exec(steps, r).lineNum == r.lineNum
    ensures (forall i :: 0 <= i < |steps| ==> steps[i].Check?) ==> Exec(steps, r) == r
    ensures forall k :: 0 <= k < |steps| && steps[k].Fail? &&
                        (forall j :: k < j < |steps| ==> steps[j].Check?) ==>
              Exec(steps, r).message == steps[k].message && !Exec(steps, r).successful
    decreases |steps|
  {
    if steps != [] {
      var r' := if steps[0].Fail? then r.(successful := false, message := steps[0].message) else r;
      assert forall i :: 0 <= i < |steps[1..]| ==> steps[1..][i] == steps[i + 1];
      ExecWithoutFailingCheck(steps[1..], r');
      forall k | 0 < k < |steps| && steps[k].Fail? && (forall j :: k < j < |steps| ==> steps[j].Check?)
        ensures Exec(steps, r).message == steps[k].message && !Exec(steps, r).successful
      {
        assert steps[1..][k - 1] == steps[k];
        assert forall j :: k - 1 < j < |steps[1..]| ==> steps[1..][j].Check?;
      }
      if steps[0].Fail? && (forall j :: 0 < j < |steps| ==> steps[j].Check?) {
        assert forall i :: 0 <= i < |steps[1..]| ==> steps[1..][i].Check?;
      }
    }
  }

  /** With no false assertion, the line stays 0, the message is that of
      the last `FAIL` (and the test failed), or the result is untouched. */
  lemma OutcomeWithoutFailingCheck(body: seq<Step>)
    requires forall i :: 0 <= i < |body| ==> !IsFailingCheck(body[i])
    ensures Outcome(body).lineNum == 0
    ensures (forall i :: 0 <= i < |body| ==> body[i].Check?) ==> Outcome(body) == InitialResult
    ensures forall k :: 0 <= k < |body| && body[k].Fail? &&
                        (forall j :: k < j < |body| ==> body[j].Check?) ==>
              Outcome(body) == TestResult(false, body[k].message, 0)
  {
    ExecWithoutFailingCheck(body, InitialResult);
  }

  // ---------------------------------------------------------------------
  // The assertion macros inside a body
  // ---------------------------------------------------------------------

  /** No statement of `steps` is a false assertion. */
  predicate NoFailingCheck(steps: seq<Step>) {
    forall i :: 0 <= i < |steps| ==> !IsFailingCheck(steps[i])
  }

  lemma {:induction false} ExecHoldingCheck(before: seq<Step>, s: Step, after: seq<Step>, r: TestResult)
    requires s.Check? && s.condition
    ensures Exec(before + [s] + after, r) == Exec(before + after, r)
    decreases |before|
  {
    var with, without := before + [s] + after, before + after;
    if before == [] {
      assert with[0] == s && with[1..] == after && without == after;
    } else {
      assert with[0] == before[0] && with[1..] == before[1..] + [s] + after;
      assert without[0] == before[0] && without[1..] == before[1..] + after;
      if !IsFailingCheck(before[0]) {
        var r' := if before[0].Fail? then r.(successful := false, message := before[0].message) else r;
        ExecHoldingCheck(before[1..], s, after, r');
      }
    }
  }

  /** An assertion statement between `before` and `after`: when its
      condition holds it leaves the outcome as if it were absent; when it
      is false and no earlier assertion failed, it decides the outcome. */
  lemma CheckEffect(before: seq<Step>, s: Step, after: seq<Step>)
    requires s.Check?
    ensures s.condition ==> Outcome(before + [s] + after) == Outcome(before + after)
    ensures !s.condition && NoFailingCheck(before) ==>
              Outcome(before + [s] + after) == TestResult(false, s.message, s.line)
  {
    if s.condition {
      ExecHoldingCheck(before, s, after, InitialResult);
    } else if NoFailingCheck(before) {
      var body := before + [s] + after;
      assert body[|before|] == s;
      assert forall i :: 0 <= i < |before| ==> body[i] == before[i];
      OutcomeFirstFailure(body, |before|);
    }
  }

  /** `ASSERT_TRUE(b)` in a body: invisible when `b` holds; otherwise,
      if no earlier assertion failed, the test fails with this line and
      the text `ASSERT_TRUE(b)`, whatever follows. */
  lemma AssertTrueEffect(b: bool, line: int, text: string, before: seq<Step>, after: seq<Step>)
    ensures b ==> Outcome(before + [AssertTrue(b, line, text)] + after) == Outcome(before + after)
    ensures !b && NoFailingCheck(before) ==>
              Outcome(before + [AssertTrue(b, line, text)] + after) ==
                TestResult(false, "ASSERT_TRUE(" + text + ")", line)
  {
    CheckEffect(before, AssertTrue(b, line, text), after);
  }

  /** `ASSERT_FALSE(b)` in a body: invisible when `b` is false; otherwise
      it decides the outcome as the first failure. */
  lemma AssertFalseEffect(b: bool, line: int, text: string, before: seq<Step>, after: seq<Step>)
    ensures !b ==> Outcome(before + [AssertFalse(b, line, text)] + after) == Outcome(before + after)
    ensures b && NoFailingCheck(before) ==>
              Outcome(before + [AssertFalse(b, line, text)] + after) ==
                TestResult(false, "ASSERT_FALSE(" + text + ")", line)
  {
    CheckEffect(before, AssertFalse(b, line, text), after);
  }

  /** `ASSERT_EQUAL(x, y)` in a body: invisible when the values are equal;
      otherwise it decides the outcome as the first failure. */
  lemma AssertEqualEffect<T>(x: T, y: T, line: int, textX: string, textY: string,
                             before: seq<Step>, after: seq<Step>)
    ensures x == y ==> Outcome(before + [AssertEqual(x, y, line, textX, textY)] + after) == Outcome(before + after)
    ensures x != y && NoFailingCheck(before) ==>
              Outcome(before + [AssertEqual(x, y, line, textX, textY)] + after) ==
                TestResult(false, "ASSERT_EQUAL(" + textX + ", " + textY + ")", line)
  {
    CheckEffect(before, AssertEqual(x, y, line, textX, textY), after);
  }

  /** `ASSERT_NOT_EQUAL(x, y)` in a body: invisible when the values
      differ; otherwise it decides the outcome as the first failure. */
  lemma AssertNotEqualEffect<T>(x: T, y: T, line: int, textX: string, textY: string,
                                before: seq<Step>, after: seq<Step>)
    ensures x != y ==> Outcome(before + [AssertNotEqual(x, y, line, textX, textY)] + after) == Outcome(before + after)
    ensures x == y && NoFailingCheck(before) ==>
              Outcome(before + [AssertNotEqual(x, y, line, textX, textY)] + after) ==
                TestResult(false, "ASSERT_NOT_EQUAL(" + textX + ", " + textY + ")", line)
  {
    CheckEffect(before, AssertNotEqual(x, y, line, textX, textY), after);
  }

  /** `ASSERT_ALMOST_EQUAL(x, y, eps)` in a body: invisible when the
      distance is strictly below `eps`; otherwise it decides the outcome
      as the first failure. */
  lemma AssertAlmostEqualEffect(x: real, y: real, eps: real, line: int,
                                textX: string, textY: string, textEps: string,
                                before: seq<Step>, after: seq<Step>)
    ensures Abs(x - y) < eps ==>
              Outcome(before + [AssertAlmostEqual(x, y, eps, line, textX, textY, textEps)] + after) ==
                Outcome(before + after)
    ensures Abs(x - y) >= eps && NoFailingCheck(before) ==>
              Outcome(before + [AssertAlmostEqual(x, y, eps, line, textX, textY, textEps)] + after) ==
                TestResult(false, "ASSERT_ALMOST_EQUAL(" + textX + ", " + textY + ", " + textEps + ")", line)
  {
    CheckEffect(before, AssertAlmostEqual(x, y, eps, line, textX, textY, textEps), after);
  }

  // ---------------------------------------------------------------------
  // Implementation: the result written through a pointer
  // ---------------------------------------------------------------------

  /** The `TestResult` the wrapper owns and passes to the body by pointer. */
  class ResultSlot {
    var successful: bool
    var message: string
    var lineNum: int

    function Value(): TestResult
      reads this
    {
      TestResult(successful, message, lineNum)
    }

    /** `TestResult out = {.successful=true}` */
    constructor ()
      ensures Value() == InitialResult
    {
      successful, message, lineNum := true, "", 0;
    }

    /** `assert_condition`: records the failure when `condition` is false
        and reports whether it did. */
    method AssertCondition(condition: bool, line: int, failureName: string) returns (failed: bool)
      modifies this
      ensures failed == !condition
      ensures Value() == if condition then old(Value()) else TestResult(false, failureName, line)
    {
      if !condition {
        message := failureName;
        lineNum := line;
        successful := false;
      }
      failed := !condition;
    }

    /** The `FAIL(ERR)` macro. */
    method SetFailed(err: string)
      modifies this
      ensures Value() == old(Value()).(successful := false, message := err)
    {
      successful := false;
      message := err;
    }
  }

  /** The function the `TEST` macro generates around a body: start from a
      successful result, run the body's statements in order, leave at the
      first assertion that reports a failure, return the result. */
  method RunTestBody(body: seq<Step>) returns (r: TestResult)
    ensures r == Outcome(body)
  {
    var out := new ResultSlot();
    var i := 0;
    while i < |body|
      invariant 0 <= i <= |body|
      invariant Exec(body[i..], out.Value()) == Outcome(body)
    {
      match body[i] {
        case Check(c, l, m) =>
          var failed := out.AssertCondition(c, l, m);
          if failed {
            return out.Value();
          }
        case Fail(m) =>
          out.SetFailed(m);
      }
      i := i + 1;
    }
    r := out.Value();
  }
}
