/** Re-running a candidate's typecheck and tests: the phase machine, with the commands' exits as inputs. */
module CandidateVerifier {
  import opened Options

  datatype Phase = Skipped | WorktreeMissing | TypecheckFailed | TestsFailed | PassedTypecheckOnly | Passed

  /** `None` is an explicit null; a command is its words. */
  type Command = Option<seq<string>>

  /** What running the commands would give; `None` is an exit without a status. */
  datatype World = World(worktreeExists: bool, typecheckStatus: Option<int>, testStatus: Option<int>)

  datatype Result = Result(phase: Phase, typecheckExit: Option<int>, testExit: Option<int>)

  const DEFAULT_TYPECHECK := ["npm", "run", "typecheck"]

  function Chosen(typecheck: Option<Command>): Command {
    if typecheck.None? then Some(DEFAULT_TYPECHECK) else typecheck.value
  }

  /** A command whose first word names something to run. */
  predicate Runnable(command: Command) {
    command.Some? && command.value != [] && command.value[0] != ""
  }

  function ExitOf(status: Option<int>): int {
    if status.Some? then status.value else -1
  }

  predicate TypecheckClean(tc: Command, test: Command, w: World) {
    if Runnable(tc) then w.typecheckStatus == Some(0)
    else if tc.Some? then tc.value == []
    else test.Some?
  }

  /** Each phase, said of the commands and their exits alone. */
  ghost predicate Explains(r: Result, tc: Command, test: Command, w: World) {
    && (r.phase.WorktreeMissing? <==> !w.worktreeExists)
    && (w.worktreeExists ==>
          && r.typecheckExit == (if Runnable(tc) then Some(ExitOf(w.typecheckStatus)) else None)
          && (r.phase.TypecheckFailed? <==> Runnable(tc) && w.typecheckStatus != Some(0))
          && (r.phase.Skipped? <==> (tc.Some? && tc.value != [] && tc.value[0] == "") || (tc.None? && test.None?))
          && (r.testExit.Some? <==> TypecheckClean(tc, test, w) && Runnable(test))
          && (r.testExit.Some? ==> r.testExit.value == ExitOf(w.testStatus))
          && (r.phase.TestsFailed? <==> TypecheckClean(tc, test, w) && Runnable(test) && w.testStatus != Some(0))
          && (r.phase.PassedTypecheckOnly? <==> TypecheckClean(tc, test, w) && test.None?)
          && (r.phase.Passed? <==>
                TypecheckClean(tc, test, w) && test.Some? && (Runnable(test) ==> w.testStatus == Some(0))))
  }

  method VerifyCandidate(typecheck: Option<Command>, testCommand: Command, w: World) returns (r: Result)
    ensures Explains(r, Chosen(typecheck), testCommand, w)
    ensures typecheck.None? ==> Explains(r, Some(["npm", "run", "typecheck"]), testCommand, w)
  {
    if !w.worktreeExists {
      return Result(WorktreeMissing, None, None);
    }
    var tc := if typecheck.None? then Some(DEFAULT_TYPECHECK) else typecheck.value;
    var phase := Passed;
    var typecheckExit: Option<int>, testExit: Option<int> := None, None;
    if tc.Some? && |tc.value| > 0 {
      if tc.value[0] == "" {
        phase := Skipped;
      } else {
        typecheckExit := Some(if w.typecheckStatus.Some? then w.typecheckStatus.value else -1);
        if w.typecheckStatus != Some(0) {
          phase := TypecheckFailed;
        }
      }
    } else if tc.None? && testCommand.None? {
      phase := Skipped;
    }
    if phase.Passed? && testCommand.Some? && |testCommand.value| > 0 {
      if testCommand.value[0] != "" {
        testExit := Some(if w.testStatus.Some? then w.testStatus.value else -1);
        if w.testStatus != Some(0) {
          phase := TestsFailed;
        }
      }
    } else if phase.Passed? && testCommand.None? {
      phase := PassedTypecheckOnly;
    }
    r := Result(phase, typecheckExit, testExit);
  }

  ghost predicate BothExitedZero(r: Result) {
    r.typecheckExit == Some(0) && r.testExit == Some(0)
  }

  /** With commands that run something, "passed" means both ran and exited with zero. */
  lemma PassedMeansBothExitedZero(r: Result, typecheck: Option<Command>, test: Command, w: World)
    requires Explains(r, Chosen(typecheck), test, w) && Runnable(Chosen(typecheck)) && Runnable(test)
    ensures r.phase.Passed? <==> w.worktreeExists && BothExitedZero(r) && w.typecheckStatus.Some? && w.testStatus.Some?
  {
  }

  /** Commands for which "passed" can never be reported. */
  predicate NeverPasses(tc: Command, test: Command) {
    test.None? || (tc.Some? && tc.value != [] && tc.value[0] == "")
  }

  /** "Passed" is trustworthy in every world exactly when both commands run something, or when it cannot be
      reported at all; an empty list or an empty first word is the way to a pass that ran nothing. */
  lemma PassedIsTrustworthyExactlyWhen(tc: Command, test: Command)
    ensures (forall w, r | Explains(r, tc, test, w) && r.phase.Passed? :: BothExitedZero(r))
      <==> (Runnable(tc) && Runnable(test)) || NeverPasses(tc, test)
  {
    if !((Runnable(tc) && Runnable(test)) || NeverPasses(tc, test)) {
      var w := World(true, Some(0), Some(0));
      var r := Result(Passed, if Runnable(tc) then Some(0) else None, if Runnable(test) then Some(0) else None);
      assert Explains(r, tc, test, w);
      assert r.phase.Passed? && !BothExitedZero(r);
    }
  }

  /** The result is determined by the commands and their exits. */
  lemma ExplanationIsUnique(a: Result, b: Result, tc: Command, test: Command, w: World)
    requires w.worktreeExists && Explains(a, tc, test, w) && Explains(b, tc, test, w)
    ensures a == b
  {
  }
}
