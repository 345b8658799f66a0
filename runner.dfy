/**
 * The command-line runner: `run_tests` scans the arguments once, left to
 * right, then walks the registry in index order and runs every selected
 * test through `run_test`, counting passes and failures.
 *
 * Printing is not modelled; what would be printed is returned as a
 * `Report`, so the help text, the name listing, the "is not a test"
 * diagnostic and the PASS/FAIL lines are all visible to the proofs.
 */
module Runner {
  import opened Assertions
  import opened Registry

  predicate IsHelpFlag(a: string) { a == "-h" || a == "--help" }
  predicate IsQuietFlag(a: string) { a == "-q" || a == "--quiet" }
  predicate IsNamesFlag(a: string) { a == "-n" || a == "--show_test_names" }
  predicate IsFlag(a: string) { IsHelpFlag(a) || IsQuietFlag(a) || IsNamesFlag(a) }

  /** What the argument scan decides. */
  datatype Decision =
    | AskHelp
    | AskNames
    | UnknownTest(arg: string)
    | RunSelected(quiet: bool, runAll: bool)

  datatype Parsed = Parsed(decision: Decision, entries: seq<NamedTest>)

  /** One PASS/FAIL line: the test's name and its result. */
  datatype Run = Run(name: string, result: TestResult)

  /** What `run_tests` prints, in place of the printing itself. */
  datatype Report =
    | Help(program: string)
    | NameList(names: seq<string>)
    | NotATest(arg: string)
    | Summary(quiet: bool, runs: seq<Run>, pass: nat, fail: nat)

  /** The arguments after the program name. */
  function Args(argv: seq<string>): seq<string> {
    if |argv| == 0 then [] else argv[1..]
  }

  /** The argument loop of `run_tests`, from the current argument on:
      `-h` and `-n` stop the scan, `-q` sets quiet, anything else turns
      off run-all and must enable a registered test or stop the scan. */
  function Parse(entries: seq<NamedTest>, args: seq<string>, quiet: bool, runAll: bool): (p: Parsed)
    ensures |p.entries| == |entries|
    ensures p.decision.UnknownTest? ==> p.decision.arg in args && !IsFlag(p.decision.arg)
    decreases |args|
  {
    if args == [] then Parsed(RunSelected(quiet, runAll), entries)
    else
      var a := args[0];
      if IsHelpFlag(a) then Parsed(AskHelp, entries)
      else if IsQuietFlag(a) then Parse(entries, args[1..], true, runAll)
      else if IsNamesFlag(a) then Parsed(AskNames, entries)
      else if FindFirst(entries, a).None? then Parsed(UnknownTest(a), entries)
      else Parse(Enable(entries, a), args[1..], quiet, false)
  }

  lemma ParseCons(entries: seq<NamedTest>, args: seq<string>, quiet: bool, runAll: bool)
    requires args != []
    ensures var a, p := args[0], Parse(entries, args, quiet, runAll);
            if IsHelpFlag(a) then p == Parsed(AskHelp, entries)
            else if IsQuietFlag(a) then p == Parse(entries, args[1..], true, runAll)
            else if IsNamesFlag(a) then p == Parsed(AskNames, entries)
            else if FindFirst(entries, a).None? then p == Parsed(UnknownTest(a), entries)
            else p == Parse(Enable(entries, a), args[1..], quiet, false)
  {
  }

  /** The registry walk's filter: every entry when running all, otherwise
      the entries marked to run, in index order. */
  function Selected(entries: seq<NamedTest>, runAll: bool): seq<NamedTest>
    decreases |entries|
  {
    if entries == [] then []
    else
      var last := entries[|entries| - 1];
      Selected(entries[..|entries| - 1], runAll) + (if runAll || last.toRun then [last] else [])
  }

  /** The entries at the indices in `chosen`, in index order. */
  function Keep(entries: seq<NamedTest>, chosen: set<int>): seq<NamedTest>
    decreases |entries|
  {
    if entries == [] then []
    else
      var n := |entries| - 1;
      Keep(entries[..n], chosen) + (if n in chosen then [entries[n]] else [])
  }

  /** Runs each test of `tests` once, in order. */
  function Execute(tests: seq<NamedTest>): seq<Run> {
    seq(|tests|, i requires 0 <= i < |tests| => Run(tests[i].name, Outcome(tests[i].body)))
  }

  /** The number of successful runs. */
  function Passed(runs: seq<Run>): (n: nat)
    ensures n <= |runs|
    decreases |runs|
  {
    if runs == [] then 0
    else Passed(runs[..|runs| - 1]) + (if runs[|runs| - 1].result.successful then 1 else 0)
  }

  /** What `run_tests` reports once the scan has decided. */
  function Respond(p: Parsed, argv: seq<string>): (report: Report)
    ensures report.Summary? <==> p.decision.RunSelected?
    ensures report.NotATest? <==> p.decision.UnknownTest?
    ensures report.Summary? ==> report.quiet == p.decision.quiet && report.pass + report.fail == |report.runs|
  {
    match p.decision
    case AskHelp => Help(if |argv| > 0 then argv[0] else "")
    case AskNames => NameList(Names(p.entries))
    case UnknownTest(a) => NotATest(a)
    case RunSelected(quiet, runAll) =>
      var runs := Execute(Selected(p.entries, runAll));
      Summary(quiet, runs, Passed(runs), |runs| - Passed(runs))
  }

  lemma RespondRun(p: Parsed, argv: seq<string>)
    requires p.decision.RunSelected?
    ensures var runs := Execute(Selected(p.entries, p.decision.runAll));
            Respond(p, argv) == Summary(p.decision.quiet, runs, Passed(runs), |runs| - Passed(runs))
  {
  }

  /** The whole of `run_tests`: the report and the registry it leaves. */
  function Controller(entries: seq<NamedTest>, argv: seq<string>): (c: (Report, seq<NamedTest>))
    ensures |c.1| == |entries|
    ensures c.0.Summary? ==> c.0.pass + c.0.fail == |c.0.runs|
    ensures c.0.NotATest? ==> c.0.arg in Args(argv) && !IsFlag(c.0.arg)
  {
    var p := Parse(entries, Args(argv), false, true);
    (Respond(p, argv), p.entries)
  }

  /** The value `run_tests` returns. */
  function ExitCode(report: Report): int {
    if report.NotATest? then -1 else 0
  }

  // ---------------------------------------------------------------------
  // Properties of the argument scan
  // ---------------------------------------------------------------------

  /** An argument the scan goes past: `-q`, or the name of a registered test. */
  predicate Ordinary(entries: seq<NamedTest>, a: string) {
    IsQuietFlag(a) || (!IsFlag(a) && FindFirst(entries, a).Some?)
  }

  /** Some positional argument names the test at index `j` first. */
  predicate Requested(entries: seq<NamedTest>, args: seq<string>, j: int) {
    exists k :: 0 <= k < |args| && !IsQuietFlag(args[k]) && IsFirstMatch(entries, args[k], j)
  }

  lemma FirstMatchSameTests(a: seq<NamedTest>, b: seq<NamedTest>, name: string, j: int)
    requires SameTests(a, b)
    ensures IsFirstMatch(a, name, j) <==> IsFirstMatch(b, name, j)
  {
  }

  /** The scan changes selection flags only. */
  lemma {:induction false} ParseKeepsTests(entries: seq<NamedTest>, args: seq<string>, quiet: bool, runAll: bool)
    ensures SameTests(entries, Parse(entries, args, quiet, runAll).entries)
    decreases |args|
  {
    if args != [] {
      var a := args[0];
      if IsQuietFlag(a) && !IsHelpFlag(a) {
        ParseKeepsTests(entries, args[1..], true, runAll);
      } else if !IsFlag(a) && FindFirst(entries, a).Some? {
        ParseKeepsTests(Enable(entries, a), args[1..], quiet, false);
      }
    }
  }

  /** Once the scan stops at an argument, later arguments are never examined. */
  lemma {:induction false} ParseIgnoresLaterArgs(entries: seq<NamedTest>, args: seq<string>, rest: seq<string>,
                                                 quiet: bool, runAll: bool)
    requires !Parse(entries, args, quiet, runAll).decision.RunSelected?
    ensures Parse(entries, args + rest, quiet, runAll) == Parse(entries, args, quiet, runAll)
    decreases |args|
  {
    var a := args[0];
    assert (args + rest)[0] == a && (args + rest)[1..] == args[1..] + rest;
    if IsHelpFlag(a) {
    } else if IsQuietFlag(a) {
      ParseIgnoresLaterArgs(entries, args[1..], rest, true, runAll);
    } else if IsNamesFlag(a) {
    } else if FindFirst(entries, a).Some? {
      ParseIgnoresLaterArgs(Enable(entries, a), args[1..], rest, quiet, false);
    }
  }

  /** After arguments the scan goes past, `-h`, `-n` or an unregistered
      name decides the outcome. */
  lemma {:induction false} ParseStopsAt(entries: seq<NamedTest>, prefix: seq<string>, a: string, rest: seq<string>,
                                        quiet: bool, runAll: bool)
    requires forall k :: 0 <= k < |prefix| ==> Ordinary(entries, prefix[k])
    ensures IsHelpFlag(a) ==> Parse(entries, prefix + [a] + rest, quiet, runAll).decision == AskHelp
    ensures IsNamesFlag(a) ==> Parse(entries, prefix + [a] + rest, quiet, runAll).decision == AskNames
    ensures !IsFlag(a) && FindFirst(entries, a).None? ==>
              Parse(entries, prefix + [a] + rest, quiet, runAll).decision == UnknownTest(a)
    decreases |prefix|
  {
    var args := prefix + [a] + rest;
    if prefix == [] {
      assert args[0] == a;
    } else {
      var x := prefix[0];
      assert args[0] == x && args[1..] == prefix[1..] + [a] + rest;
      assert Ordinary(entries, x);
      if IsQuietFlag(x) {
        ParseStopsAt(entries, prefix[1..], a, rest, true, runAll);
      } else {
        var e' := Enable(entries, x);
        forall k | 0 <= k < |prefix| - 1 ensures Ordinary(e', prefix[1..][k]) {
          FindFirstIgnoresFlags(entries, e', prefix[1..][k]);
          assert Ordinary(entries, prefix[k + 1]);
        }
        FindFirstIgnoresFlags(entries, e', a);
        ParseStopsAt(e', prefix[1..], a, rest, quiet, false);
      }
    }
  }

  lemma RequestedStep(entries: seq<NamedTest>, args: seq<string>, j: int)
    requires args != []
    ensures Requested(entries, args, j) <==>
              (!IsQuietFlag(args[0]) && IsFirstMatch(entries, args[0], j)) || Requested(entries, args[1..], j)
  {
    var rest := args[1..];
    if Requested(entries, args, j) && !(!IsQuietFlag(args[0]) && IsFirstMatch(entries, args[0], j)) {
      var k :| 0 <= k < |args| && !IsQuietFlag(args[k]) && IsFirstMatch(entries, args[k], j);
      assert rest[k - 1] == args[k];
    }
    if Requested(entries, rest, j) {
      var k :| 0 <= k < |rest| && !IsQuietFlag(rest[k]) && IsFirstMatch(entries, rest[k], j);
      assert args[k + 1] == rest[k];
    }
  }

  lemma RequestedSameTests(a: seq<NamedTest>, b: seq<NamedTest>, args: seq<string>, j: int)
    requires SameTests(a, b)
    ensures Requested(a, args, j) <==> Requested(b, args, j)
  {
    forall k | 0 <= k < |args| ensures IsFirstMatch(a, args[k], j) <==> IsFirstMatch(b, args[k], j) {
      FirstMatchSameTests(a, b, args[k], j);
    }
  }

  /** Enabling a name keeps every argument the scan went past one it goes past. */
  lemma OrdinaryAfterEnable(entries: seq<NamedTest>, a: string, args: seq<string>)
    requires forall k :: 0 <= k < |args| ==> Ordinary(entries, args[k])
    ensures forall k :: 0 <= k < |args| ==> Ordinary(Enable(entries, a), args[k])
  {
    forall k | 0 <= k < |args| ensures Ordinary(Enable(entries, a), args[k]) {
      FindFirstIgnoresFlags(entries, Enable(entries, a), args[k]);
    }
  }

  /** When every argument is one the scan goes past, the run goes ahead:
      quiet iff some argument is `-q`, running all iff every argument is
      `-q`. */
  lemma {:induction false} ParseAllOrdinaryDecision(entries: seq<NamedTest>, args: seq<string>, quiet: bool, runAll: bool)
    requires forall k :: 0 <= k < |args| ==> Ordinary(entries, args[k])
    ensures Parse(entries, args, quiet, runAll).decision.RunSelected?
    ensures Parse(entries, args, quiet, runAll).decision.quiet <==>
              quiet || exists k :: 0 <= k < |args| && IsQuietFlag(args[k])
    ensures Parse(entries, args, quiet, runAll).decision.runAll <==>
              runAll && forall k :: 0 <= k < |args| ==> IsQuietFlag(args[k])
    decreases |args|
  {
    if args != [] {
      var a, rest := args[0], args[1..];
      assert forall k :: 0 <= k < |rest| ==> rest[k] == args[k + 1];
      assert Ordinary(entries, a);
      if IsQuietFlag(a) {
        ParseAllOrdinaryDecision(entries, rest, true, runAll);
      } else {
        OrdinaryAfterEnable(entries, a, rest);
        ParseAllOrdinaryDecision(Enable(entries, a), rest, quiet, false);
      }
    }
  }

  /** When every argument is one the scan goes past, the entries newly
      selected are exactly the first matches of the names given. */
  lemma {:induction false} ParseAllOrdinarySelection(entries: seq<NamedTest>, args: seq<string>, quiet: bool, runAll: bool)
    requires forall k :: 0 <= k < |args| ==> Ordinary(entries, args[k])
    ensures SameTests(entries, Parse(entries, args, quiet, runAll).entries)
    ensures forall j :: 0 <= j < |entries| ==>
              (Parse(entries, args, quiet, runAll).entries[j].toRun <==>
                 entries[j].toRun || Requested(entries, args, j))
    decreases |args|
  {
    ParseKeepsTests(entries, args, quiet, runAll);
    if args != [] {
      var a, rest := args[0], args[1..];
      assert forall k :: 0 <= k < |rest| ==> rest[k] == args[k + 1];
      assert Ordinary(entries, a);
      if IsQuietFlag(a) {
        ParseAllOrdinarySelection(entries, rest, true, runAll);
        forall j | 0 <= j < |entries| ensures Requested(entries, args, j) <==> Requested(entries, rest, j) {
          RequestedStep(entries, args, j);
        }
      } else {
        var e' := Enable(entries, a);
        OrdinaryAfterEnable(entries, a, rest);
        ParseAllOrdinarySelection(e', rest, quiet, false);
        forall j | 0 <= j < |entries|
          ensures Parse(e', rest, quiet, false).entries[j].toRun <==> entries[j].toRun || Requested(entries, args, j)
        {
          RequestedStep(entries, args, j);
          RequestedSameTests(e', entries, rest, j);
        }
      }
    }
  }

  /** Arguments that are all `-q` or `--quiet` only set the quiet flag. */
  lemma {:induction false} ParseOnlyQuiet(entries: seq<NamedTest>, args: seq<string>, quiet: bool, runAll: bool)
    requires forall k :: 0 <= k < |args| ==> IsQuietFlag(args[k])
    ensures Parse(entries, args, quiet, runAll) == Parsed(RunSelected(quiet || args != [], runAll), entries)
    decreases |args|
  {
    if args != [] {
      assert IsQuietFlag(args[0]);
      assert forall k :: 0 <= k < |args| - 1 ==> args[1..][k] == args[k + 1];
      ParseOnlyQuiet(entries, args[1..], true, runAll);
    }
  }

  /** Decisions that differ at most in the quiet flag. */
  function Unquiet(d: Decision): Decision {
    if d.RunSelected? then RunSelected(false, d.runAll) else d
  }

  lemma {:induction false} ParseQuietIrrelevant(entries: seq<NamedTest>, args: seq<string>, q1: bool, q2: bool, runAll: bool)
    ensures Parse(entries, args, q1, runAll).entries == Parse(entries, args, q2, runAll).entries
    ensures Unquiet(Parse(entries, args, q1, runAll).decision) == Unquiet(Parse(entries, args, q2, runAll).decision)
    decreases |args|
  {
    if args != [] {
      var a := args[0];
      if !IsHelpFlag(a) && !IsQuietFlag(a) && !IsNamesFlag(a) && FindFirst(entries, a).Some? {
        ParseQuietIrrelevant(Enable(entries, a), args[1..], q1, q2, false);
      }
    }
  }

  /** An extra `-q` or `--quiet` anywhere changes neither the selection
      nor the decision, apart from the quiet flag itself. */
  lemma {:induction false} ParseExtraQuiet(entries: seq<NamedTest>, prefix: seq<string>, q: string, rest: seq<string>,
                                           quiet: bool, runAll: bool)
    requires IsQuietFlag(q)
    ensures Parse(entries, prefix + [q] + rest, quiet, runAll).entries == Parse(entries, prefix + rest, quiet, runAll).entries
    ensures Unquiet(Parse(entries, prefix + [q] + rest, quiet, runAll).decision) ==
            Unquiet(Parse(entries, prefix + rest, quiet, runAll).decision)
    decreases |prefix|
  {
    var with, without := prefix + [q] + rest, prefix + rest;
    if prefix == [] {
      assert with[0] == q && with[1..] == rest && without == rest;
      ParseQuietIrrelevant(entries, rest, true, quiet, runAll);
    } else {
      var x := prefix[0];
      assert with[0] == x && with[1..] == prefix[1..] + [q] + rest;
      assert without[0] == x && without[1..] == prefix[1..] + rest;
      if IsHelpFlag(x) {
      } else if IsQuietFlag(x) {
        ParseExtraQuiet(entries, prefix[1..], q, rest, true, runAll);
      } else if IsNamesFlag(x) {
      } else if FindFirst(entries, x).Some? {
        ParseExtraQuiet(Enable(entries, x), prefix[1..], q, rest, quiet, false);
      }
    }
  }

  // ---------------------------------------------------------------------
  // Properties of the registry walk and the tally
  // ---------------------------------------------------------------------

  lemma ExecuteAppend(tests: seq<NamedTest>, t: NamedTest)
    ensures Execute(tests + [t]) == Execute(tests) + [Run(t.name, Outcome(t.body))]
  {
    var a, b := Execute(tests + [t]), Execute(tests) + [Run(t.name, Outcome(t.body))];
    assert forall i :: 0 <= i < |a| ==> a[i] == b[i];
  }

  lemma SelectedStep(entries: seq<NamedTest>, j: nat, runAll: bool)
    requires j < |entries|
    ensures Selected(entries[..j + 1], runAll) ==
              Selected(entries[..j], runAll) + (if runAll || entries[j].toRun then [entries[j]] else [])
  {
    assert entries[..j + 1][..j] == entries[..j];
  }

  lemma PassedAppend(runs: seq<Run>, r: Run)
    ensures Passed(runs + [r]) == Passed(runs) + (if r.result.successful then 1 else 0)
  {
    assert (runs + [r])[..|runs|] == runs;
  }

  /** Running all means running every entry, in index order. */
  lemma {:induction false} SelectedAll(entries: seq<NamedTest>)
    ensures Selected(entries, true) == entries
    decreases |entries|
  {
    if entries != [] {
      var n := |entries| - 1;
      SelectedAll(entries[..n]);
      assert entries[..n] + [entries[n]] == entries;
    }
  }

  /** Running a subset means running the entries whose flag is set, in
      index order: those at the indices in `chosen`, for entries that
      agree with the flagged ones apart from the flags. */
  lemma {:induction false} SelectedIsKeep(flagged: seq<NamedTest>, entries: seq<NamedTest>, chosen: set<int>)
    requires SameTests(flagged, entries)
    requires forall j :: 0 <= j < |flagged| ==> (flagged[j].toRun <==> j in chosen)
    ensures Execute(Selected(flagged, false)) == Execute(Keep(entries, chosen))
    decreases |flagged|
  {
    if flagged != [] {
      var n := |flagged| - 1;
      SelectedIsKeep(flagged[..n], entries[..n], chosen);
      if n in chosen {
        ExecuteAppend(Selected(flagged[..n], false), flagged[n]);
        ExecuteAppend(Keep(entries[..n], chosen), entries[n]);
      } else {
        assert Selected(flagged, false) == Selected(flagged[..n], false);
        assert Keep(entries, chosen) == Keep(entries[..n], chosen);
      }
    }
  }

  /** `pass` is the number of runs whose result is successful. */
  lemma {:induction false} PassedIsCount(runs: seq<Run>)
    ensures Passed(runs) == |set i | 0 <= i < |runs| && runs[i].result.successful|
    decreases |runs|
  {
    if runs != [] {
      var n := |runs| - 1;
      PassedIsCount(runs[..n]);
      var before := set i | 0 <= i < n && runs[..n][i].result.successful;
      var all := set i | 0 <= i < |runs| && runs[i].result.successful;
      if runs[n].result.successful {
        assert all == before + {n};
      } else {
        assert all == before;
      }
    }
  }

  /** `pass` counts the successful runs: 0 iff none succeeded, all of
      them iff every one did. */
  lemma {:induction false} PassedCounts(runs: seq<Run>)
    ensures Passed(runs) == |runs| <==> forall i :: 0 <= i < |runs| ==> runs[i].result.successful
    ensures Passed(runs) == 0 <==> forall i :: 0 <= i < |runs| ==> !runs[i].result.successful
    decreases |runs|
  {
    if runs != [] {
      var n := |runs| - 1;
      PassedCounts(runs[..n]);
      assert forall i :: 0 <= i < n ==> runs[..n][i] == runs[i];
    }
  }

  // ---------------------------------------------------------------------
  // Properties of the whole command line
  // ---------------------------------------------------------------------

  /** `-h`, `-n` or an unregistered name, after arguments the scan goes
      past, ends the call: help and the name listing return 0, an unknown
      name returns -1 and names the argument; no test is run. */
  lemma CliShortCircuit(entries: seq<NamedTest>, program: string, prefix: seq<string>, a: string, rest: seq<string>)
    requires forall k :: 0 <= k < |prefix| ==> Ordinary(entries, prefix[k])
    ensures var report := Controller(entries, [program] + prefix + [a] + rest).0;
            (IsHelpFlag(a) ==> report == Help(program) && ExitCode(report) == 0) &&
            (IsNamesFlag(a) ==> report == NameList(Names(entries)) && ExitCode(report) == 0) &&
            (!IsFlag(a) && FindFirst(entries, a).None? ==> report == NotATest(a) && ExitCode(report) == -1)
  {
    var argv := [program] + prefix + [a] + rest;
    assert Args(argv) == prefix + [a] + rest;
    ParseStopsAt(entries, prefix, a, rest, false, true);
    ParseKeepsTests(entries, Args(argv), false, true);
  }

  /** The scan reaches `args[k]`, an unregistered name, going past every
      argument before it. */
  predicate StopsUnknownAt(entries: seq<NamedTest>, args: seq<string>, k: int) {
    0 <= k < |args| && !IsFlag(args[k]) && FindFirst(entries, args[k]).None? &&
    forall j :: 0 <= j < k ==> Ordinary(entries, args[j])
  }

  /** The index of the first argument the scan does not go past. */
  lemma FirstNotOrdinary(entries: seq<NamedTest>, args: seq<string>) returns (k: int)
    requires exists i :: 0 <= i < |args| && !Ordinary(entries, args[i])
    ensures 0 <= k < |args| && !Ordinary(entries, args[k])
    ensures forall j :: 0 <= j < k ==> Ordinary(entries, args[j])
  {
    k := 0;
    while Ordinary(entries, args[k])
      invariant 0 <= k < |args|
      invariant forall j :: 0 <= j < k ==> Ordinary(entries, args[j])
      invariant exists i :: k <= i < |args| && !Ordinary(entries, args[i])
      decreases |args| - k
    {
      k := k + 1;
    }
  }

  /** The first argument the scan does not go past decides it. */
  lemma FirstStopParse(entries: seq<NamedTest>, args: seq<string>, k: int, quiet: bool, runAll: bool)
    requires 0 <= k < |args| && !Ordinary(entries, args[k])
    requires forall j :: 0 <= j < k ==> Ordinary(entries, args[j])
    ensures Parse(entries, args, quiet, runAll).decision ==
              if IsHelpFlag(args[k]) then AskHelp
              else if IsNamesFlag(args[k]) then AskNames
              else UnknownTest(args[k])
  {
    assert args == args[..k] + [args[k]] + args[k + 1..];
    ParseStopsAt(entries, args[..k], args[k], args[k + 1..], quiet, runAll);
  }

  /** The scan reports an unknown test only where an unregistered name is
      the first argument it does not go past. */
  lemma ParseUnknownStops(entries: seq<NamedTest>, args: seq<string>, quiet: bool, runAll: bool)
    requires Parse(entries, args, quiet, runAll).decision.UnknownTest?
    ensures exists k :: StopsUnknownAt(entries, args, k)
  {
    if forall i :: 0 <= i < |args| ==> Ordinary(entries, args[i]) {
      ParseAllOrdinaryDecision(entries, args, quiet, runAll);
    } else {
      var k := FirstNotOrdinary(entries, args);
      FirstStopParse(entries, args, k, quiet, runAll);
      assert StopsUnknownAt(entries, args, k);
    }
  }

  /** `run_tests` returns -1 exactly when the scan, going past `-q`s and
      registered names, reaches a name that is not registered before any
      `-h` or `-n`; every other call returns 0. */
  lemma ExitCodeIff(entries: seq<NamedTest>, argv: seq<string>)
    ensures ExitCode(Controller(entries, argv).0) == -1 <==> exists k :: StopsUnknownAt(entries, Args(argv), k)
    ensures ExitCode(Controller(entries, argv).0) == 0 <==> !exists k :: StopsUnknownAt(entries, Args(argv), k)
  {
    var args := Args(argv);
    var p := Parse(entries, args, false, true);
    assert Controller(entries, argv).0 == Respond(p, argv);
    if exists k :: StopsUnknownAt(entries, args, k) {
      var k :| StopsUnknownAt(entries, args, k);
      FirstStopParse(entries, args, k, false, true);
    } else if p.decision.UnknownTest? {
      ParseUnknownStops(entries, args, false, true);
    }
  }

  /** With no test names on the command line every registered test runs
      exactly once, in registration order; the call returns 0 whatever
      the failures, and `-q` only sets the quiet flag. */
  lemma CliRunAll(entries: seq<NamedTest>, argv: seq<string>)
    requires forall k :: 1 <= k < |argv| ==> IsQuietFlag(argv[k])
    ensures var (report, after) := Controller(entries, argv);
            after == entries &&
            report.Summary? && report.quiet == (|argv| > 1) &&
            |report.runs| == |entries| &&
            (forall j :: 0 <= j < |entries| ==> report.runs[j] == Run(entries[j].name, Outcome(entries[j].body))) &&
            report.pass + report.fail == |entries| &&
            ExitCode(report) == 0
  {
    var args := Args(argv);
    assert forall k :: 0 <= k < |args| ==> args[k] == argv[k + 1];
    ParseOnlyQuiet(entries, args, false, true);
    var p := Parse(entries, args, false, true);
    assert p == Parsed(RunSelected(|argv| > 1, true), entries);
    SelectedAll(entries);
    RespondRun(p, argv);
  }

  /** With test names on the command line, all registered, the tests run
      are exactly those already selected or named by some argument (the
      first entry of that name), in registration order whatever the order
      of the arguments; the call returns 0 whatever the failures. */
  lemma CliRunSubset(entries: seq<NamedTest>, argv: seq<string>)
    requires forall k :: 1 <= k < |argv| ==> Ordinary(entries, argv[k])
    requires exists k :: 1 <= k < |argv| && !IsQuietFlag(argv[k])
    ensures var report := Controller(entries, argv).0;
            report.Summary? &&
            report.runs == Execute(Keep(entries, set j | 0 <= j < |entries| &&
                                                     (entries[j].toRun || Requested(entries, Args(argv), j)))) &&
            report.pass + report.fail == |report.runs| &&
            ExitCode(report) == 0
  {
    var args := Args(argv);
    var chosen := set j | 0 <= j < |entries| && (entries[j].toRun || Requested(entries, args, j));
    ParseSubset(entries, argv, chosen);
    var p := Parse(entries, args, false, true);
    SelectedIsKeep(p.entries, entries, chosen);
    RespondRun(p, argv);
  }

  lemma ParseSubset(entries: seq<NamedTest>, argv: seq<string>, chosen: set<int>)
    requires forall k :: 1 <= k < |argv| ==> Ordinary(entries, argv[k])
    requires exists k :: 1 <= k < |argv| && !IsQuietFlag(argv[k])
    requires chosen == set j | 0 <= j < |entries| && (entries[j].toRun || Requested(entries, Args(argv), j))
    ensures var p := Parse(entries, Args(argv), false, true);
            p.decision.RunSelected? && !p.decision.runAll && SameTests(p.entries, entries) &&
            forall j :: 0 <= j < |p.entries| ==> (p.entries[j].toRun <==> j in chosen)
  {
    var args := Args(argv);
    assert forall k :: 0 <= k < |args| ==> args[k] == argv[k + 1];
    var k0 :| 1 <= k0 < |argv| && !IsQuietFlag(argv[k0]);
    assert !IsQuietFlag(args[k0 - 1]);
    ParseAllOrdinaryDecision(entries, args, false, true);
    ParseAllOrdinarySelection(entries, args, false, true);
  }

  /** Adding `-q` or `--quiet` anywhere runs the same tests with the same
      results. */
  lemma CliQuietRunsSameTests(entries: seq<NamedTest>, program: string, prefix: seq<string>, q: string,
                              rest: seq<string>)
    requires IsQuietFlag(q)
    ensures var (r1, e1) := Controller(entries, [program] + prefix + [q] + rest);
            var (r2, e2) := Controller(entries, [program] + prefix + rest);
            e1 == e2 && r1.Summary? == r2.Summary? &&
            (r1.Summary? ==> r1.runs == r2.runs && r1.pass == r2.pass && r1.fail == r2.fail && r1.quiet) &&
            (!r1.Summary? ==> r1 == r2)
  {
    assert Args([program] + prefix + [q] + rest) == prefix + [q] + rest;
    assert Args([program] + prefix + rest) == prefix + rest;
    ParseExtraQuiet(entries, prefix, q, rest, false, true);
    var p1 := Parse(entries, prefix + [q] + rest, false, true);
    if p1.decision.RunSelected? {
      QuietFlagSeen(entries, prefix, q, rest, false, true);
    }
  }

  lemma {:induction false} QuietFlagSeen(entries: seq<NamedTest>, prefix: seq<string>, q: string, rest: seq<string>,
                                         quiet: bool, runAll: bool)
    requires IsQuietFlag(q)
    requires Parse(entries, prefix + [q] + rest, quiet, runAll).decision.RunSelected?
    ensures Parse(entries, prefix + [q] + rest, quiet, runAll).decision.quiet
    decreases |prefix|
  {
    var with := prefix + [q] + rest;
    if prefix == [] {
      assert with[0] == q && with[1..] == rest;
      QuietStays(entries, rest, runAll);
    } else {
      var x := prefix[0];
      assert with[0] == x && with[1..] == prefix[1..] + [q] + rest;
      if IsQuietFlag(x) && !IsHelpFlag(x) {
        QuietFlagSeen(entries, prefix[1..], q, rest, true, runAll);
      } else if !IsFlag(x) && FindFirst(entries, x).Some? {
        QuietFlagSeen(Enable(entries, x), prefix[1..], q, rest, quiet, false);
      }
    }
  }

  lemma {:induction false} QuietStays(entries: seq<NamedTest>, args: seq<string>, runAll: bool)
    requires Parse(entries, args, true, runAll).decision.RunSelected?
    ensures Parse(entries, args, true, runAll).decision.quiet
    decreases |args|
  {
    if args != [] {
      var a := args[0];
      if IsQuietFlag(a) && !IsHelpFlag(a) {
        QuietStays(entries, args[1..], runAll);
      } else if !IsFlag(a) && FindFirst(entries, a).Some? {
        QuietStays(Enable(entries, a), args[1..], false);
      }
    }
  }

  // ---------------------------------------------------------------------
  // Implementation
  // ---------------------------------------------------------------------

  /** `run_test`: runs one test and reports whether it passed. */
  method RunTest(test: NamedTest) returns (passed: bool, result: TestResult)
    ensures result == Outcome(test.body) && passed == result.successful
    ensures passed <==> forall i :: 0 <= i < |test.body| ==> test.body[i].Check? && test.body[i].condition
  {
    result := RunTestBody(test.body);
    OutcomeSuccessIff(test.body);
    passed := result.successful;
  }

  /** `run_tests` over the registry `reg`, with `argv[0]` the program name. */
  method RunTests(reg: TestRegistry, argv: seq<string>) returns (code: int, report: Report)
    requires reg.Valid()
    modifies reg.tests
    ensures reg.Valid()
    ensures (report, reg.Entries()) == Controller(old(reg.Entries()), argv)
    ensures code == ExitCode(report)
  {
    var decision := ScanArgs(reg, argv);
    ghost var p := Parsed(decision, reg.Entries());
    match decision {
      case AskHelp =>
        code, report := 0, Help(argv[0]);
      case AskNames =>
        var names;
        code, names := reg.TestNames();
        report := NameList(names);
      case UnknownTest(a) =>
        code, report := -1, NotATest(a);
      case RunSelected(quiet, runAll) =>
        var runs, pass, fail := RunRegistered(reg, runAll);
        code, report := 0, Summary(quiet, runs, pass, fail);
        RespondRun(p, argv);
    }
    assert report == Respond(p, argv);
  }

  /** What `enable_test` reports decides the scan's next step. */
  lemma EnableFound(entries: seq<NamedTest>, name: string, found: bool)
    requires found <==> exists i :: 0 <= i < |entries| && entries[i].name == name
    ensures found <==> FindFirst(entries, name).Some?
    ensures !found ==> Enable(entries, name) == entries
  {
    if !found {
      EnableUnknown(entries, name);
    }
  }

  /** One turn of the argument loop on `a`, from `before` to `after`: it
      stops exactly at `-h`, `-n` or an unregistered name, enables the
      named test when `a` is registered, and otherwise goes on with quiet
      set by `-q` and run-all cleared by a name. */
  predicate Turn(before: seq<NamedTest>, a: string, quiet: bool, runAll: bool,
                 stop: bool, decision: Decision, after: seq<NamedTest>) {
    (stop <==> IsHelpFlag(a) || IsNamesFlag(a) || (!IsFlag(a) && FindFirst(before, a).None?)) &&
    after == (if !IsFlag(a) && FindFirst(before, a).Some? then Enable(before, a) else before) &&
    (!stop ==> decision == RunSelected(quiet || IsQuietFlag(a), runAll && IsQuietFlag(a)))
  }

  /** One turn of the argument loop of `run_tests`, on the argument `a`
      that heads the `rest` of the command line: `stop` when `a` ends the
      scan with `decision`; otherwise `decision` carries the quiet and
      run-all flags the scan goes on with. */
  method ScanArg(reg: TestRegistry, a: string, quiet: bool, runAll: bool, ghost rest: seq<string>)
    returns (stop: bool, decision: Decision)
    requires reg.Valid() && rest != [] && rest[0] == a
    modifies reg.tests
    ensures reg.Valid()
    ensures Turn(old(reg.Entries()), a, quiet, runAll, stop, decision, reg.Entries())
    ensures Parse(old(reg.Entries()), rest, quiet, runAll) ==
            if stop then Parsed(decision, reg.Entries())
            else Parse(reg.Entries(), rest[1..], decision.quiet, decision.runAll)
  {
    ghost var before := reg.Entries();
    ParseCons(before, rest, quiet, runAll);
    if IsHelpFlag(a) {
      return true, AskHelp;
    } else if IsQuietFlag(a) {
      return false, RunSelected(true, runAll);
    } else if IsNamesFlag(a) {
      return true, AskNames;
    }
    var found := reg.EnableTest(a);
    EnableFound(before, a, found);
    if !found {
      return true, UnknownTest(a);
    }
    return false, RunSelected(quiet, false);
  }

  /** The first half of `run_tests`: the left-to-right scan of the
      arguments, selecting named tests as it goes and stopping at `-h`,
      `-n` or a name that is not registered. */
  method ScanArgs(reg: TestRegistry, argv: seq<string>) returns (decision: Decision)
    requires reg.Valid()
    modifies reg.tests
    ensures reg.Valid()
    ensures Parsed(decision, reg.Entries()) == Parse(old(reg.Entries()), Args(argv), false, true)
    ensures decision.AskHelp? ==> |argv| > 0
  {
    var quiet := false;
    var runAll := true;
    ghost var args := Args(argv);
    ghost var target := Parse(old(reg.Entries()), args, false, true);

    var i := 1;
    while i < |argv|
      invariant 1 <= i <= |args| + 1
      invariant reg.Valid()
      invariant Parse(reg.Entries(), args[i - 1..], quiet, runAll) == target
    {
      assert args[i - 1..][0] == argv[i] && args[i - 1..][1..] == args[i..];
      var stop, next := ScanArg(reg, argv[i], quiet, runAll, args[i - 1..]);
      if stop {
        return next;
      }
      quiet, runAll := next.quiet, next.runAll;
      i := i + 1;
    }
    return RunSelected(quiet, runAll);
  }

  /** The second half of `run_tests`: the walk over the registry in index
      order, skipping unselected entries unless running all, counting
      passes and failures. */
  method RunRegistered(reg: TestRegistry, runAll: bool) returns (runs: seq<Run>, pass: nat, fail: nat)
    requires reg.Valid()
    ensures runs == Execute(Selected(reg.Entries(), runAll))
    ensures pass == Passed(runs) && fail == |runs| - pass
  {
    ghost var entries := reg.Entries();
    runs := [];
    pass, fail := 0, 0;
    for j := 0 to reg.numTests
      invariant runs == Execute(Selected(entries[..j], runAll))
      invariant pass == Passed(runs) && fail == |runs| - pass
    {
      SelectedStep(entries, j, runAll);
      if !runAll && !reg.tests[j].toRun {
        continue;
      }
      var test := reg.tests[j];
      var passed, result := RunTest(test);
      ExecuteAppend(Selected(entries[..j], runAll), test);
      PassedAppend(runs, Run(test.name, result));
      runs := runs + [Run(test.name, result)];
      if passed {
        pass := pass + 1;
      } else {
        fail := fail + 1;
      }
    }
    assert entries[..reg.numTests] == entries;
  }

  /** The outcomes of the three bodies of `ExampleRun`. */
  lemma ExampleOutcomes(closeCheck: Step)
    requires closeCheck == AssertAlmostEqual(1.0, 1.0005, 0.01, 16, "1.0", "1.0005", "0.01")
    ensures Outcome([]) == InitialResult
    ensures Outcome([AssertTrue(false, 12, "false")]) == TestResult(false, "ASSERT_TRUE(false)", 12)
    ensures Outcome([closeCheck]) == InitialResult
  {
    assert Abs(1.0 - 1.0005) < 0.01;
    assert [closeCheck][1..] == [];
  }

  lemma PassedOfThree(a: Run, b: Run, c: Run)
    ensures Passed([a, b, c]) ==
              (if a.result.successful then 1 else 0) + (if b.result.successful then 1 else 0) +
              (if c.result.successful then 1 else 0)
  {
    PassedAppend([], a);
    PassedAppend([a], b);
    PassedAppend([a, b], c);
    assert [a] == [] + [a] && [a, b] == [a] + [b] && [a, b, c] == [a, b] + [c];
  }

  /** Three tests declared in order, run with no arguments: one always
      passes, one fails `ASSERT_TRUE(false)` at line 12, one compares
      1.0 with 1.0005 within 0.01. */
  method ExampleRun() returns (code: int, report: Report)
    ensures code == 0 && report.Summary?
    ensures report.pass == 2 && report.fail == 1
    ensures |report.runs| == 3 && report.runs[1] == Run("alwaysFail", TestResult(false, "ASSERT_TRUE(false)", 12))
  {
    var reg := new TestRegistry(TestCount);
    var closeCheck := AssertAlmostEqual(1.0, 1.0005, 0.01, 16, "1.0", "1.0005", "0.01");
    reg.Register("alwaysPass", []);
    reg.Register("alwaysFail", [AssertTrue(false, 12, "false")]);
    reg.Register("closeEnough", [closeCheck]);
    ghost var entries := reg.Entries();
    code, report := RunTests(reg, ["tests"]);
    CliRunAll(entries, ["tests"]);
    ExampleOutcomes(closeCheck);
    ghost var expected := [Run("alwaysPass", InitialResult),
                           Run("alwaysFail", TestResult(false, "ASSERT_TRUE(false)", 12)),
                           Run("closeEnough", InitialResult)];
    assert report.runs == expected;
    PassedOfThree(expected[0], expected[1], expected[2]);
  }
}
