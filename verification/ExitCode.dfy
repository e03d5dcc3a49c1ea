/**
 From the list of scenarios to the exit code: the announced count (cmd/sinq/sinq.go), the pipeline and the
 verdict put together.
 */
module ExitCode {
  import opened Pipeline
  import opened Verdict
  import M = Matrix

  /** What the results hold, without the tasks they are of. */
  function Outcomes(rs: seq<Result>): seq<ScenarioResult> {
    seq(|rs|, i requires 0 <= i < |rs| => rs[i].outcome)
  }

  predicate NoneFailed(rs: seq<Result>) {
    forall i :: 0 <= i < |rs| ==> !Failed(rs[i].outcome)
  }

  lemma OutcomesFail(rs: seq<Result>)
    ensures (forall o <- Outcomes(rs) :: !Failed(o)) <==> NoneFailed(rs)
  {
    forall i | 0 <= i < |rs|
      ensures rs[i].outcome in Outcomes(rs)
    {
      assert Outcomes(rs)[i] == rs[i].outcome;
    }
  }

  /**
   Once it is finished, a pipeline has handed each reporter all it emitted; what was not emitted was given up or
   never sent.
   */
  lemma FinishedIsHeard(z: Sizes, tasks: seq<Task>, reporters: nat, s: State, i: nat)
    requires Pipeline.Reachable(z, tasks, reporters, s) && s.fan.Finished? && i < |s.heard|
    ensures s.heard[i] == s.emitted && |s.emitted| + |s.dropped| <= |tasks|
    ensures z.workers > 0 && !s.cancelled ==> |s.emitted| == |tasks|
  {
    ReachableOk(z, tasks, reporters, s);
    assert HeardOk(s, i);
    if z.workers > 0 && !s.cancelled {
      EveryTaskIsHeardOnce(z, tasks, reporters, s, i, 0);
    }
  }

  /**
   The verdict of a finished run, cancelled or not: success if and only if each task's result was emitted and
   none failed.  So a run that nobody cancelled is a success if and only if nothing failed, and one in which a
   result was given up is none.
   */
  method VerdictOfRun(z: Sizes, tasks: seq<Task>, reporters: nat, ghost s: State, ghost i: nat, heard: seq<Result>)
    returns (success: bool)
    requires Pipeline.Reachable(z, tasks, reporters, s) && s.fan.Finished? && i < |s.heard| && heard == s.heard[i]
    ensures success <==> |s.emitted| == |tasks| && NoneFailed(s.emitted)
    ensures z.workers > 0 && !s.cancelled ==> (success <==> NoneFailed(s.emitted))
    ensures s.dropped != [] ==> !success
  {
    FinishedIsHeard(z, tasks, reporters, s, i);
    OutcomesFail(heard);
    var reporter := new ResultReporter();
    reporter.Report(Outcomes(heard), |tasks|);
    success := reporter.success;
  }

  /** What a reporter heard by the end of a run that nobody cancelled. */
  ghost predicate HeardToTheEnd(
    z: Sizes, tasks: seq<Task>, reporters: nat, s: State, i: nat, heard: seq<Result>)
  {
    && Pipeline.Reachable(z, tasks, reporters, s) && s.fan.Finished? && z.workers > 0 && !s.cancelled
    && i < |s.heard| && heard == s.heard[i]
  }

  /**
   The program does not run when it expects nothing, and that is no success.  Otherwise its verdict goes by the
   count it announces: if a scenario is to be run and the count is not at least one, more tasks are sent than
   results are expected, and a run that nobody cancelled is never a success.
   */
  method VerdictOfProgram(
    fs: seq<M.Found>, count: nat, z: Sizes, tasks: seq<Task>, reporters: nat, ghost s: State, ghost i: nat,
    heard: seq<Result>)
    returns (success: bool)
    requires |tasks| == M.Sent(M.Bundled(fs, count))
    requires M.Expected(fs, count) > 0 ==> HeardToTheEnd(z, tasks, reporters, s, i, heard)
    ensures success <==> fs != [] && (count >= 1 || M.NoneIncluded(fs)) && NoneFailed(s.emitted)
  {
    M.NothingExpectedIff(fs, count);
    var expected, bundles := M.Bundles(fs, count);
    if expected == 0 {
      success := false;
    } else {
      FinishedIsHeard(z, tasks, reporters, s, i);
      OutcomesFail(heard);
      M.ExpectedIsSentIff(fs, count);
      var reporter := new ResultReporter();
      reporter.Report(Outcomes(heard), expected);
      success := reporter.success;
    }
  }
}
