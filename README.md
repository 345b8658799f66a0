# A verified model of a header-only C unit-test harness

The harness lives in one header, `c/unit_test_framework.h`. Each `TEST(NAME)`
declaration registers itself into a fixed global array of `TEST_COUNT` named
tests (256 unless the program defines its own value before including the
header) before `main` runs. `run_tests(argc, argv)` then scans the command line once,
left to right:

- `-h`/`--help` and `-n`/`--show_test_names` end the call with 0;
- `-q`/`--quiet` sets a flag;
- any other argument must name a registered test, which `enable_test` marks
  to run, or the call ends with -1.

After the scan it walks the registry in index order. It runs every test when
no name was given and only the marked ones otherwise, and it counts passes
and failures. Inside a test, the `ASSERT_*` macros call `assert_condition`
and leave the test at the first false condition. So a failed test reports
exactly one line and one message.

The model has three modules, one per component of the header:

- `Assertions` (`assertions.dfy`). The `TestResult` record. A test body as
  the sequence of `Step`s it executes: an `ASSERT_*` check or a `FAIL`. The
  assertion macros as step constructors, with a lemma per macro for what it
  does to the test it sits in. `ResultSlot` is a class standing for
  the `TestResult` the body writes through a pointer; its methods are
  `assert_condition` and `FAIL`. `RunTestBody` is the wrapper function that
  `TEST` generates. Its loop is proved equal to the pure `Outcome` of the
  body, and the fail-fast properties are proved about `Outcome`.
- `Registry` (`registry.dfy`). `TestRegistry` is a class over an `array` of
  `capacity` (`TEST_COUNT`) `NamedTest`s plus the `numTests` counter. Its methods are `Register`
  (the body of the generated `register_NAME`), `EnableTest` (the linear
  scan of `enable_test`) and `TestNames`. Two pure functions specify them:
  `FindFirst` (the first entry with a name) and `Enable` (the registry after
  `enable_test`).
- `Runner` (`runner.dfy`). `RunTest` and `RunTests`. `RunTests` is written as
  its two loops: `ScanArgs` over `argv` and `RunRegistered` over the
  registry. The body of the argument loop is the method `ScanArg`. Both loops
  are proved against the pure `Controller`, which is built from `Parse` (the
  argument loop), `Selected`/`Execute` (the registry walk) and `Passed` (the
  tally). What the C code prints is returned as a `Report` value:
  - the help request with the program name;
  - the list of names;
  - the offending argument;
  - one `Run` (name and result) per PASS/FAIL line, then the counts.

  `ExitCode` gives the value `run_tests` returns; `ExitCodeIff` says which
  command lines make it -1.

In the C code, `run_tests` returns from inside its argument loop. The model
ends `ScanArgs` at the same argument with a `Decision` and lets `RunTests`
act on it. `help` and `test_names` have no effect on the registry, so the
observable behaviour is the same.

Behaviour of the header worth knowing:

- Registering past the `TEST_COUNT`-entry capacity writes outside the array; the
  header does not report it. `Register` therefore requires spare capacity.
- A normal run returns 0 even when tests fail; only an unknown test name
  gives -1.
- Naming the same test twice on the command line runs it once.
- Tests run in registry order, whatever the order of the names given.
- If two entries had the same name, only the first would be selected.
- `FAIL` marks the test failed and sets the message, but it neither sets
  the line nor leaves the test, so a later false assertion overwrites its
  message.
- `FAIL(ERR)` expands to two statements without braces. Under an `if`, only
  `successful = false` is guarded; the message is written whatever the
  condition, so `if (0) FAIL("m");` leaves a passing result carrying the
  message "m". The model's `Fail` step stands for a `FAIL` that runs in
  full; "## Left out" names the members this affects.
- `ASSERT_ALMOST_EQUAL(A, B, EPS)` writes each of `A`, `B` and `EPS` twice,
  and `&&` evaluates the second difference only when the first is below
  `EPS`. An argument with side effects (`i++`, a call that changes state)
  is therefore evaluated once or twice, and the two differences may see
  different values. The model's `AssertAlmostEqual` takes each value once,
  so it stands for arguments without side effects.

## Model

| member | source | states |
|---|---|---|
| Assertions.Exec | c/unit_test_framework.h:37-45 | a run of statements that ends successful has left the result exactly as it found it |
| Assertions.Outcome | c/unit_test_framework.h:18-22 | a successful test returns the untouched initial result: successful, empty message, line 0 |
| Assertions.CheckEffect | c/unit_test_framework.h:40-45 | an assertion statement that holds leaves the outcome as if it were absent; a false one with no false assertion before it makes the outcome failed with its own message and line, whatever follows |
| Assertions.AssertTrueEffect | c/unit_test_framework.h:40 | `ASSERT_TRUE(b)` has no effect on the test when `b` holds; otherwise, if no earlier assertion failed, the test fails with this line and the message `ASSERT_TRUE(b)` |
| Assertions.AssertFalseEffect | c/unit_test_framework.h:41 | `ASSERT_FALSE(b)` has no effect when `b` is false; otherwise, if no earlier assertion failed, the test fails with this line and `ASSERT_FALSE(b)` |
| Assertions.AssertEqualEffect | c/unit_test_framework.h:42 | `ASSERT_EQUAL(x, y)` has no effect when the values are equal; otherwise, if no earlier assertion failed, the test fails with this line and `ASSERT_EQUAL(x, y)` |
| Assertions.AssertNotEqualEffect | c/unit_test_framework.h:43 | `ASSERT_NOT_EQUAL(x, y)` has no effect when the values differ; otherwise, if no earlier assertion failed, the test fails with this line and `ASSERT_NOT_EQUAL(x, y)` |
| Assertions.AssertAlmostEqualEffect | c/unit_test_framework.h:44-45 | `ASSERT_ALMOST_EQUAL(x, y, eps)` has no effect when the distance is strictly below `eps`; otherwise, if no earlier assertion failed, the test fails with this line and `ASSERT_ALMOST_EQUAL(x, y, eps)` |
| Assertions.AlmostEqualIsStrictDistance | c/unit_test_framework.h:44 | the two one-sided differences hold iff the distance is strictly below epsilon, so a distance equal to epsilon fails |
| Assertions.OutcomeSuccessIff | c/unit_test_framework.h:37-45 | a test passes iff every statement it executes is a check that holds; one false check or one `FAIL` anywhere makes it fail |
| Assertions.OutcomeFirstFailure | c/unit_test_framework.h:40-45 | when the first false check is at index k, the result is failed and carries k's line and message, whatever precedes or follows it |
| Assertions.OutcomeIgnoresRest | c/unit_test_framework.h:40-45 | the statements after a false check never affect the result |
| Assertions.OutcomeWithoutFailingCheck | c/unit_test_framework.h:37-38 | with no false check the line stays 0; the result is the initial success if there is no `FAIL`, otherwise failed with the last `FAIL`'s message |
| Assertions.ResultSlot.constructor | c/unit_test_framework.h:19 | the result starts successful, with an empty message and line 0 |
| Assertions.ResultSlot.AssertCondition | c/unit_test_framework.h:122-129 | returns the negated condition; a true condition leaves the result unchanged, a false one sets the message, the line and failure |
| Assertions.ResultSlot.SetFailed | c/unit_test_framework.h:37-38 | `FAIL` marks the result failed and sets its message; the line is kept |
| Assertions.RunTestBody | c/unit_test_framework.h:18-22 | the wrapper's result equals the body's outcome: run in order from a successful result, stopping at the first check that reports failure |
| Registry.FindFirst | c/unit_test_framework.h:131-139 | finds an index iff some entry has the name; the index found holds the name and no earlier entry does |
| Registry.FirstMatchUnique | c/unit_test_framework.h:131-139 | an index is the first match for a name iff the lookup returns it |
| Registry.Enable | c/unit_test_framework.h:131-139 | same length, names and bodies; an entry is marked to run iff it already was or it is the first entry with the name |
| Registry.FindFirstIgnoresFlags | c/unit_test_framework.h:133 | the lookup depends on names only, never on selection flags |
| Registry.EnableUnknown | c/unit_test_framework.h:132-138 | enabling a name no entry has leaves the registry unchanged |
| Registry.EnableIdempotent | c/unit_test_framework.h:131-139 | enabling a name twice gives the same registry as enabling it once |
| Registry.EnableCommutes | c/unit_test_framework.h:131-139 | enabling two names in either order gives the same registry |
| Registry.TestRegistry.constructor | c/unit_test_framework.h:69-70 | an array of the given `TEST_COUNT` slots with no registered test |
| Registry.TestRegistry.Register | c/unit_test_framework.h:23-28 | below capacity, the new test goes at index `num_tests` unselected, the counter rises by one, and earlier entries are unchanged |
| Registry.TestRegistry.EnableTest | c/unit_test_framework.h:131-139 | returns true iff a registered entry has the name; the registry becomes `Enable` of the old one, so only the first match changes and the counter does not |
| Registry.TestRegistry.TestNames | c/unit_test_framework.h:157-162 | lists every registered name once, in registration order, and returns 0 |
| Runner.Parse | c/unit_test_framework.h:95-106 | the scan keeps the number of entries; the argument it reports as not a test is one of the arguments and not a flag |
| Runner.Respond | c/unit_test_framework.h:96-118 | a summary is produced iff the scan let the run go ahead, and the unknown-test report iff it stopped at an unknown name; a summary carries the scan's quiet flag and pass + fail is its number of runs |
| Runner.Controller | c/unit_test_framework.h:89-120 | the call keeps the number of registered tests; a summary's pass + fail is its number of runs; an unknown-test report names one of the arguments, never a flag |
| Runner.ExitCodeIff | c/unit_test_framework.h:95-119 | the call returns -1 exactly when some argument is an unregistered name and every argument before it is `-q` or a registered name, and it returns 0 in every other case, failed tests included |
| Runner.Passed | c/unit_test_framework.h:112-116 | the pass count is a natural number no larger than the number of runs |
| Runner.PassedIsCount | c/unit_test_framework.h:112-116 | the pass count is the number of runs whose result is successful |
| Runner.ParseKeepsTests | c/unit_test_framework.h:95-106 | the argument scan changes selection flags only, never names, bodies or the count |
| Runner.ParseIgnoresLaterArgs | c/unit_test_framework.h:95-106 | once the scan stops at an argument, appending further arguments changes nothing |
| Runner.ParseStopsAt | c/unit_test_framework.h:96-104 | after `-q`s and registered names, `-h` gives help, `-n` gives the listing and an unregistered name gives the unknown-test error |
| Runner.ParseUnknownStops | c/unit_test_framework.h:95-104 | the unknown-test error is reported only for an unregistered name that every argument before it lets the scan go past |
| Runner.ParseAllOrdinaryDecision | c/unit_test_framework.h:92-100 | when every argument is `-q` or a registered name, the run goes ahead; it is quiet iff some argument is `-q` and runs all iff no name is given |
| Runner.ParseAllOrdinarySelection | c/unit_test_framework.h:99-101 | when every argument is `-q` or a registered name, an entry ends up selected iff it was selected already or is the first match of a given name |
| Runner.ParseOnlyQuiet | c/unit_test_framework.h:95-97 | arguments that are all `-q` or `--quiet` leave the registry unchanged, run all tests, and make the run quiet iff there is at least one |
| Runner.ParseQuietIrrelevant | c/unit_test_framework.h:97 | the quiet state changes neither the selection nor the decision apart from the quiet flag |
| Runner.ParseExtraQuiet | c/unit_test_framework.h:97 | inserting `-q` or `--quiet` anywhere changes neither the selection nor the decision apart from the quiet flag |
| Runner.QuietFlagSeen | c/unit_test_framework.h:97 | a run whose arguments contain `-q` or `--quiet` is quiet |
| Runner.QuietStays | c/unit_test_framework.h:91-97 | once set, quiet is never cleared |
| Runner.SelectedAll | c/unit_test_framework.h:110-111 | in run-all mode the walk visits every entry, in index order |
| Runner.SelectedIsKeep | c/unit_test_framework.h:110-111 | in subset mode the walk runs exactly the entries whose flag is set, in index order |
| Runner.PassedCounts | c/unit_test_framework.h:112-116 | the pass count equals the number of runs iff every run succeeded, and is 0 iff none did |
| Runner.CliShortCircuit | c/unit_test_framework.h:95-106 | after `-q`s and registered names, `-h` reports help and `-n` lists all names, both returning 0; an unregistered name is reported and returns -1; no test runs |
| Runner.CliRunAll | c/unit_test_framework.h:89-120 | with only `-q`s, every registered test runs once in index order; pass + fail is the number of tests, the registry is unchanged, the result is 0 and quiet iff `-q` was given |
| Runner.CliRunSubset | c/unit_test_framework.h:89-120 | with registered names, the tests run are exactly the selected or named ones, in registry order, whatever the argument order; pass + fail is their number and the result is 0 |
| Runner.CliQuietRunsSameTests | c/unit_test_framework.h:97 | adding `-q` or `--quiet` anywhere leaves the registry, the runs and the counts as they were and makes the run quiet |
| Runner.RunTest | c/unit_test_framework.h:77-87 | returns the test's outcome; passes iff every statement of its body is a check that holds |
| Runner.RunTests | c/unit_test_framework.h:89-120 | report and final registry equal `Controller` of the initial registry and `argv`; the return value is -1 for an unknown name and 0 otherwise |
| Runner.ScanArg | c/unit_test_framework.h:96-105 | one turn of the argument loop (`Turn`): it stops exactly at `-h`, `-n` or an unregistered name; the registry afterwards is `Enable` of the old one when the argument is a registered name and unchanged otherwise; when it goes on, quiet is set by `-q` and run-all is cleared by a name; and stopping or going on agrees with `Parse` of the remaining arguments |
| Runner.ScanArgs | c/unit_test_framework.h:95-106 | the loop over `argv[1..]` reaches the decision and registry that `Parse` defines |
| Runner.RunRegistered | c/unit_test_framework.h:108-119 | the runs are the selected entries' outcomes in index order; pass counts the successful ones and fail the rest |
| Runner.ExampleRun | c/unit_test_framework.h:89-120 | a passing test, a test failing `ASSERT_TRUE(false)` at line 12 and a passing near-equality, run with no arguments, give 2 passed and 1 failed; the failure carries line 12 |

## Left out

- Printing: the `--- TESTS ---` header, PASS/FAIL lines, colour escapes, the help text and the summary line are console output. The model returns the information they carry as a `Report` value.
- The `__attribute__((constructor))` start-up hook and `TEST_MAIN`: registration is an explicit `Register` call made before `RunTests`.
- Test functions are foreign code. A body is the sequence of already-evaluated checks and `FAIL`s it executes. Other side effects of user code are not modelled.
- `#BOOL`/`#A` stringification: the text of each macro argument is passed in as a string.
- `strcmp` is string equality. The C code never compares the NULL names of unused array slots, and neither does the model.
- The message pointer of a fresh `TestResult` is NULL; here it is the empty string.
- Assertions.AssertAlmostEqualEffect: the condition is evaluated on exact reals, not on C `double` arithmetic with rounding, NaN or infinities, and its arguments are taken to have no side effects, since the macro evaluates them once or twice.
- Registry.TestRegistry.Register: requires spare capacity instead of modelling the out-of-bounds write past `TEST_COUNT` entries, which is undefined behaviour in C.
- Runner.RunTest: has no `quiet` parameter, because in `run_test` it only decides what is printed.
- `tests` and `num_tests` are `static` in the header, so every translation unit that includes it has its own registry. The model is one translation unit's registry.
- Two `TEST(NAME)` declarations with the same name do not compile, because each defines a function `NAME`. Registries with duplicate names are a generalisation the model allows; the first entry wins, as the scan in `enable_test` gives.
- `TEST_COUNT` is a preprocessor constant the program may define before including the header. The capacity is a parameter of the `TestRegistry` constructor; `ExampleRun` uses the default, 256.
- `num_tests`, `pass` and `fail` are C `int`s. They stay at most `TEST_COUNT`, which is taken to fit in an `int`, so no overflow is modelled.
- Assertions.Exec: a `Fail` step stands for a whole `FAIL` macro that runs. The lone message write of a `FAIL` under a false `if` is not modelled, so the promise that a successful run leaves the result unchanged does not cover such bodies.
- Assertions.Outcome: for the same reason, a passing test is promised the initial result only for bodies without a `FAIL` under a false `if`; in C such a `FAIL` leaves its message in a passing result.
- Assertions.OutcomeWithoutFailingCheck: the message promised is that of the last `FAIL` that runs; in C it is the last `FAIL` reached, including one under a false `if`, which the model does not represent.
