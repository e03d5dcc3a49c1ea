/**
 How a worker takes a scenario through its requests (internal/runner/worker.go, request-processor.go,
 lua-utility.go).
 */
module Scenarios {
  import opened Lexing
  import opened Verdict

  // Scripts, the network and the clock may do anything: a script makes any calls that steer the scenario or
  // fail an assertion, any phase may end in an error or a panic, and the context may end at any request.  What
  // they did is kept in a log, and everything the worker decides is proved to be a function of that log.

  datatype Config = Config(maxRetries: int, failFast: bool)

  datatype Request = Request(pre: Token, retry: Token, asserts: Token, post: Token)

  /** What a script can call: `setNextRequest(n)`, `finishScenario()`, a failing assertion. */
  datatype Call = Jump(n: int) | Finish | Fail

  datatype Phase = Pre | Materialize | Parse | Send | Retry | Assert | Check | Post

  /** A phase of a request that was begun, and the calls its scripts made. */
  datatype Step = Step(phase: Phase, calls: seq<Call>)

  datatype Outcome = Fine | Err(cancelled: bool) | Panic

  /** How a request ended. */
  datatype End = Done | Skip | Stopped(why: Outcome)

  /** One request that was run: its place, the failed assertions left over from before, what happened, how it ended. */
  datatype Run = Ran(request: nat, carried: nat, log: seq<Step>, end: End)

  // ----- the phases of a request -----

  predicate IsEmpty(t: Token) {
    t.payloadEnd - t.payloadStart <= 1
  }

  predicate Present(t: Token) {
    !IsEmpty(t) && t.kind != IncompleteToken
  }

  predicate RetryPresent(t: Token) {
    !IsEmpty(t) && t.kind == Script
  }

  function Rounds(retry: bool, sends: nat): seq<Phase> {
    if sends == 0 then [] else Rounds(retry, sends - 1) + [Send] + (if retry then [Retry] else [])
  }

  function UpToSending(req: Request, sends: nat): seq<Phase> {
    (if Present(req.pre) then [Pre] else []) + [Materialize, Parse] + Rounds(RetryPresent(req.retry), sends)
  }

  function UpToCheck(req: Request, sends: nat): seq<Phase> {
    UpToSending(req, sends) + (if Present(req.asserts) then [Assert] else []) + [Check]
  }

  /** All phases of a request that is sent so many times. */
  function Full(req: Request, sends: nat): seq<Phase> {
    UpToCheck(req, sends) + (if Present(req.post) then [Post] else [])
  }

  /** Only a retry script can ask for more than one sending, and not for more than the configured retries. */
  predicate Allowed(req: Request, cfg: Config, sends: nat) {
    (sends > 0 ==> sends <= cfg.maxRetries + 1) && (!RetryPresent(req.retry) ==> sends <= 1)
  }

  function Phases(log: seq<Step>): seq<Phase> {
    seq(|log|, i requires 0 <= i < |log| => log[i].phase)
  }

  /** Only scripts make calls. */
  predicate Quiet(log: seq<Step>) {
    forall i :: 0 <= i < |log| && (log[i].phase.Parse? || log[i].phase.Send? || log[i].phase.Check?) ==>
      log[i].calls == []
  }

  // ----- what calls do -----

  function Aim(at: int, calls: seq<Call>, n: nat): int {
    if calls == [] then at
    else
      var before := Aim(at, calls[..|calls| - 1], n);
      match calls[|calls| - 1]
      case Jump(k) => if 1 <= k <= n then k - 1 else before
      case Finish => n
      case Fail => before
  }

  /** The request that is next after a log, if it was `at` before. */
  function Next(at: int, log: seq<Step>, n: nat): int {
    if log == [] then at else Aim(Next(at, log[..|log| - 1], n), log[|log| - 1].calls, n)
  }

  function Fails(calls: seq<Call>): nat {
    if calls == [] then 0 else Fails(calls[..|calls| - 1]) + (if calls[|calls| - 1].Fail? then 1 else 0)
  }

  /** The failed assertions that no check has seen yet. */
  function Pending(carried: nat, log: seq<Step>): nat {
    if log == [] then carried
    else if log[|log| - 1].phase.Check? then 0
    else Pending(carried, log[..|log| - 1]) + Fails(log[|log| - 1].calls)
  }

  /** Whether the check found a failed assertion. */
  predicate Found(carried: nat, log: seq<Step>) {
    log != [] &&
    if log[|log| - 1].phase.Check? then Pending(carried, log[..|log| - 1]) > 0
    else Found(carried, log[..|log| - 1])
  }

  // ----- what a run amounts to -----

  /** A run goes through the phases in order; it may stop anywhere, but does so by itself only for a reason. */
  ghost predicate Lawful(req: Request, cfg: Config, run: Run) {
    Quiet(run.log) &&
    match run.end
    case Done =>
      exists sends: nat ::
        && sends > 0 && Allowed(req, cfg, sends)
        && Phases(run.log) ==
           if cfg.failFast && Found(run.carried, run.log) then UpToCheck(req, sends) else Full(req, sends)
    case Skip => Present(req.pre) && Phases(run.log) == [Pre]
    case Stopped(why) =>
      && !why.Fine? && !(cfg.failFast && Found(run.carried, run.log))
      && exists sends: nat :: Allowed(req, cfg, sends) && Phases(run.log) <= Full(req, sends)
  }

  /** What is reported for the request itself.  A request that panics is not marked as failed. */
  function Own(run: Run): Status {
    match run.end
    case Skip => Skipped
    case Stopped(Err(cancelled)) => if cancelled then Aborted else Error
    case _ => if Found(run.carried, run.log) then Failure else Success
  }

  function StatusAfter(s: Status, run: Run): Status {
    match run.end
    case Stopped(Err(cancelled)) => if cancelled then Aborted else Error
    case Stopped(Panic) => Error
    case _ => if Found(run.carried, run.log) then Failure else s
  }

  /** Whether the scenario goes on after this run, if there is a request left. */
  predicate GoesOn(cfg: Config, run: Run) {
    !run.end.Stopped? && !(cfg.failFast && Found(run.carried, run.log))
  }

  // ----- the course of a scenario -----

  function Last(runs: seq<Run>): Run
    requires runs != []
  {
    runs[|runs| - 1]
  }

  function NextRequest(runs: seq<Run>, n: nat): int {
    if runs == [] then 0 else Next(Last(runs).request + 1, Last(runs).log, n)
  }

  function CarriedOver(runs: seq<Run>): nat {
    if runs == [] then 0 else Pending(Last(runs).carried, Last(runs).log)
  }

  /**
   Each run is of the request that was next, with the failed assertions that were left, after one that let the
   scenario go on.
   */
  predicate Ordered(n: nat, cfg: Config, runs: seq<Run>) {
    runs != [] ==>
      var before := runs[..|runs| - 1];
      && Ordered(n, cfg, before)
      && (before != [] ==> GoesOn(cfg, Last(before)))
      && Last(runs).request == NextRequest(before, n) && Last(runs).request < n
      && Last(runs).carried == CarriedOver(before)
  }

  ghost predicate AllLawful(requests: seq<Request>, cfg: Config, runs: seq<Run>) {
    forall i :: 0 <= i < |runs| ==> runs[i].request < |requests| && Lawful(requests[runs[i].request], cfg, runs[i])
  }

  /** What can happen to a scenario. */
  ghost predicate Course(requests: seq<Request>, cfg: Config, runs: seq<Run>) {
    Ordered(|requests|, cfg, runs) && AllLawful(requests, cfg, runs)
  }

  lemma OneMoreRun(requests: seq<Request>, cfg: Config, runs: seq<Run>, run: Run)
    requires Course(requests, cfg, runs) && (runs != [] ==> GoesOn(cfg, Last(runs)))
    requires run.request == NextRequest(runs, |requests|) && run.request < |requests|
    requires run.carried == CarriedOver(runs) && Lawful(requests[run.request], cfg, run)
    ensures Course(requests, cfg, runs + [run])
  {
    assert (runs + [run])[..|runs|] == runs;
  }

  function StatusOf(runs: seq<Run>): Status {
    if runs == [] then Success else StatusAfter(StatusOf(runs[..|runs| - 1]), Last(runs))
  }

  function ResultsOf(n: nat, runs: seq<Run>): (results: seq<Status>)
    ensures |results| == n
  {
    if runs == [] then seq(n, i => Unset)
    else
      var before := ResultsOf(n, runs[..|runs| - 1]);
      if Last(runs).request < n then before[Last(runs).request := Own(Last(runs))] else before
  }

  lemma ResultsOfOneMore(n: nat, runs: seq<Run>, run: Run)
    requires run.request < n
    ensures StatusOf(runs + [run]) == StatusAfter(StatusOf(runs), run)
    ensures ResultsOf(n, runs + [run]) == ResultsOf(n, runs)[run.request := Own(run)]
    ensures Last(runs + [run]) == run && CarriedOver(runs + [run]) == Pending(run.carried, run.log)
    ensures NextRequest(runs + [run], n) == Next(run.request + 1, run.log, n)
  {
    assert (runs + [run])[..|runs|] == runs;
  }

  /** A scenario fails for good: once a run has spoilt its status, no later one mends it. */
  lemma {:induction false} NeverMended(runs: seq<Run>, k: nat)
    requires k <= |runs| && StatusOf(runs[..k]) != Success
    ensures StatusOf(runs) != Success
    decreases |runs|
  {
    if k < |runs| {
      assert runs[..|runs| - 1][..k] == runs[..k];
      NeverMended(runs[..|runs| - 1], k);
    } else {
      assert runs[..k] == runs;
    }
  }

  predicate Flawless(run: Run) {
    !run.end.Stopped? && !Found(run.carried, run.log)
  }

  /** What is never found in a course: a stop without a reason, or a failed assertion in a request that was skipped. */
  predicate Proper(run: Run) {
    && (run.end.Stopped? ==> !run.end.why.Fine?)
    && (run.end.Skip? ==> !Found(run.carried, run.log))
  }

  lemma LawfulIsProper(req: Request, cfg: Config, run: Run)
    requires Lawful(req, cfg, run)
    ensures Proper(run)
  {
    if run.end.Skip? {
      assert Phases(run.log)[0] == Pre;
      assert run.log[..|run.log| - 1] == [];
    }
  }

  lemma AllProper(requests: seq<Request>, cfg: Config, runs: seq<Run>)
    requires AllLawful(requests, cfg, runs)
    ensures forall i :: 0 <= i < |runs| ==> Proper(runs[i])
  {
    forall i | 0 <= i < |runs|
      ensures Proper(runs[i])
    {
      LawfulIsProper(requests[runs[i].request], cfg, runs[i]);
    }
  }

  lemma {:induction false} FlawlessRuns(runs: seq<Run>)
    requires forall i :: 0 <= i < |runs| ==> Proper(runs[i])
    ensures StatusOf(runs) == Success <==> forall i :: 0 <= i < |runs| ==> Flawless(runs[i])
    ensures StatusOf(runs) in {Success, Failure, Error, Aborted}
    decreases |runs|
  {
    if runs != [] {
      var n := |runs| - 1;
      FlawlessRuns(runs[..n]);
      assert forall i :: 0 <= i < n ==> runs[..n][i] == runs[i];
      assert StatusOf(runs) == Success <==> StatusOf(runs[..n]) == Success && Flawless(runs[n]);
    }
  }

  /** A scenario succeeds exactly if each run went on to its end and no check found a failed assertion. */
  lemma {:induction false} SuccessIff(requests: seq<Request>, cfg: Config, runs: seq<Run>)
    requires Course(requests, cfg, runs)
    ensures StatusOf(runs) == Success <==> forall i :: 0 <= i < |runs| ==> Flawless(runs[i])
  {
    AllProper(requests, cfg, runs);
    FlawlessRuns(runs);
  }

  /** What is reported for a request is what its last run amounts to. */
  lemma {:induction false} LastRunCounts(n: nat, runs: seq<Run>, k: nat)
    requires k < |runs| && runs[k].request < n
    requires forall i :: k < i < |runs| ==> runs[i].request != runs[k].request
    ensures ResultsOf(n, runs)[runs[k].request] == Own(runs[k])
    decreases |runs|
  {
    if k < |runs| - 1 {
      LastRunCounts(n, runs[..|runs| - 1], k);
    }
  }

  lemma {:induction false} CleanResults(n: nat, runs: seq<Run>, r: nat)
    requires forall i :: 0 <= i < |runs| ==> Proper(runs[i]) && Flawless(runs[i])
    requires r < n
    ensures ResultsOf(n, runs)[r] in {Success, Skipped, Unset}
    decreases |runs|
  {
    if runs != [] {
      CleanResults(n, runs[..|runs| - 1], r);
      assert Proper(Last(runs)) && Flawless(Last(runs));
    }
  }

  /** A scenario that succeeds reports no request that did not: only successes, skipped ones and ones not reached. */
  lemma {:induction false} SuccessIsClean(requests: seq<Request>, cfg: Config, runs: seq<Run>, r: nat)
    requires Course(requests, cfg, runs) && StatusOf(runs) == Success && r < |requests|
    ensures ResultsOf(|requests|, runs)[r] in {Success, Skipped, Unset}
  {
    AllProper(requests, cfg, runs);
    FlawlessRuns(runs);
    CleanResults(|requests|, runs, r);
  }

  /** The verdict on a scenario's result goes by its status alone: the requests add nothing to it. */
  lemma {:induction false} VerdictGoesByStatus(requests: seq<Request>, cfg: Config, runs: seq<Run>)
    requires Course(requests, cfg, runs)
    ensures Verdict.Failed(ScenarioResult(StatusOf(runs), ResultsOf(|requests|, runs))) <==> StatusOf(runs) != Success
  {
    AllProper(requests, cfg, runs);
    FlawlessRuns(runs);
    var results := ResultsOf(|requests|, runs);
    if StatusOf(runs) == Success {
      forall s | s in results
        ensures !Bad(s)
      {
        var r :| 0 <= r < |results| && results[r] == s;
        CleanResults(|requests|, runs, r);
      }
    }
  }

  lemma {:induction false} GoesOnBefore(n: nat, cfg: Config, runs: seq<Run>, k: nat)
    requires Ordered(n, cfg, runs) && k + 1 < |runs|
    ensures GoesOn(cfg, runs[k])
    decreases |runs|
  {
    if k + 2 < |runs| {
      GoesOnBefore(n, cfg, runs[..|runs| - 1], k);
    }
  }

  /** With fail-fast the first check that finds a failed assertion is the last thing that happens. */
  lemma {:induction false} NothingAfterTheFirstFailure(requests: seq<Request>, cfg: Config, runs: seq<Run>, k: nat)
    requires Course(requests, cfg, runs) && cfg.failFast
    requires k < |runs| && Found(runs[k].carried, runs[k].log)
    ensures k == |runs| - 1 && runs[k].log[|runs[k].log| - 1].phase == Check
  {
    if k + 1 < |runs| {
      GoesOnBefore(|requests|, cfg, runs, k);
      assert false;
    }
    var run := runs[k];
    LawfulIsProper(requests[run.request], cfg, run);
    var phases := Phases(run.log);
    assert phases[|phases| - 1] == Check;
  }

  /**
   A panic spoils the scenario, but the request it happened in is reported as a success unless a check had failed
   before.
   */
  lemma PanicBlamesNoRequest(n: nat, runs: seq<Run>)
    requires runs != [] && Last(runs).request < n && Last(runs).end == Stopped(Panic)
    ensures StatusOf(runs) == Error
    ensures ResultsOf(n, runs)[Last(runs).request] ==
      (if Found(Last(runs).carried, Last(runs).log) then Failure else Success)
  {
    LastRunCounts(n, runs, |runs| - 1);
  }

  // ----- how often a request is sent -----

  function Sends(phases: seq<Phase>): nat {
    if phases == [] then 0 else Sends(phases[..|phases| - 1]) + (if phases[|phases| - 1].Send? then 1 else 0)
  }

  lemma {:induction false} SendsOfAppend(a: seq<Phase>, b: seq<Phase>)
    ensures Sends(a + b) == Sends(a) + Sends(b)
    decreases |b|
  {
    if b == [] {
      assert a + b == a;
    } else {
      assert (a + b)[..|a + b| - 1] == a + b[..|b| - 1];
      SendsOfAppend(a, b[..|b| - 1]);
    }
  }

  lemma {:induction false} SendsOfRounds(retry: bool, sends: nat)
    ensures Sends(Rounds(retry, sends)) == sends
  {
    if sends > 0 {
      SendsOfRounds(retry, sends - 1);
      var before, tail: seq<Phase> := Rounds(retry, sends - 1), if retry then [Retry] else [];
      SendsOfAppend(before, [Send] + tail);
      SendsOfAppend([Send], tail);
      assert Rounds(retry, sends) == before + ([Send] + tail);
    }
  }

  lemma {:induction false} NoSends(phases: seq<Phase>)
    requires Send !in phases
    ensures Sends(phases) == 0
    decreases |phases|
  {
    if phases != [] {
      NoSends(phases[..|phases| - 1]);
    }
  }

  lemma SendsBetween(head: seq<Phase>, rounds: seq<Phase>, tail: seq<Phase>)
    requires Send !in head && Send !in tail
    ensures Sends(head + rounds + tail) == Sends(rounds)
  {
    SendsOfAppend(head + rounds, tail);
    SendsOfAppend(head, rounds);
    NoSends(head);
    NoSends(tail);
  }

  lemma SendsOfFull(req: Request, sends: nat)
    ensures Sends(Full(req, sends)) == sends
  {
    var rounds := Rounds(RetryPresent(req.retry), sends);
    var head := (if Present(req.pre) then [Pre] else []) + [Materialize, Parse];
    var tail := (if Present(req.asserts) then [Assert] else []) + [Check] + (if Present(req.post) then [Post] else []);
    assert Full(req, sends) == head + rounds + tail;
    SendsBetween(head, rounds, tail);
    SendsOfRounds(RetryPresent(req.retry), sends);
  }

  /** However a request ends, it is sent at most once more than there are retries. */
  lemma SentAtMostMaxRetriesPlusOne(req: Request, cfg: Config, run: Run)
    requires Lawful(req, cfg, run)
    ensures var sends := Sends(Phases(run.log)); sends > 0 ==> sends <= cfg.maxRetries + 1
    ensures !RetryPresent(req.retry) ==> Sends(Phases(run.log)) <= 1
  {
    var phases := Phases(run.log);
    if run.end.Skip? {
      NoSends(phases);
    } else {
      var sends: nat :| Allowed(req, cfg, sends) && phases <= Full(req, sends);
      var rest := Full(req, sends)[|phases|..];
      assert Full(req, sends) == phases + rest;
      SendsOfAppend(phases, rest);
      SendsOfFull(req, sends);
    }
  }

  // ----- the order of requests -----

  lemma {:induction false} AimStaysInRange(at: int, calls: seq<Call>, n: nat)
    requires 0 <= at <= n
    ensures 0 <= Aim(at, calls, n) <= n
    decreases |calls|
  {
    if calls != [] {
      AimStaysInRange(at, calls[..|calls| - 1], n);
    }
  }

  lemma {:induction false} NextStaysInRange(at: int, log: seq<Step>, n: nat)
    requires 0 <= at <= n
    ensures 0 <= Next(at, log, n) <= n
    decreases |log|
  {
    if log != [] {
      NextStaysInRange(at, log[..|log| - 1], n);
      AimStaysInRange(Next(at, log[..|log| - 1], n), log[|log| - 1].calls, n);
    }
  }

  /** Whatever scripts ask for, the next request is one of the scenario's or the end. */
  lemma RequestIdxStaysInRange(n: nat, cfg: Config, runs: seq<Run>)
    requires Ordered(n, cfg, runs)
    ensures 0 <= NextRequest(runs, n) <= n
  {
    if runs != [] {
      NextStaysInRange(Last(runs).request + 1, Last(runs).log, n);
    }
  }

  predicate NoneSteers(calls: seq<Call>) {
    forall i :: 0 <= i < |calls| ==> calls[i].Fail?
  }

  lemma {:induction false} UnsteeredAim(at: int, calls: seq<Call>, n: nat)
    requires NoneSteers(calls)
    ensures Aim(at, calls, n) == at
    decreases |calls|
  {
    if calls != [] {
      UnsteeredAim(at, calls[..|calls| - 1], n);
    }
  }

  predicate Unsteered(log: seq<Step>) {
    forall i :: 0 <= i < |log| ==> NoneSteers(log[i].calls)
  }

  lemma {:induction false} UnsteeredNext(at: int, log: seq<Step>, n: nat)
    requires Unsteered(log)
    ensures Next(at, log, n) == at
    decreases |log|
  {
    if log != [] {
      UnsteeredNext(at, log[..|log| - 1], n);
      UnsteeredAim(at, log[|log| - 1].calls, n);
    }
  }

  lemma {:induction false} RequestAfter(n: nat, cfg: Config, runs: seq<Run>, k: nat)
    requires Ordered(n, cfg, runs) && k < |runs|
    ensures runs[k].request == if k == 0 then 0 else Next(runs[k - 1].request + 1, runs[k - 1].log, n)
    decreases |runs|
  {
    if k < |runs| - 1 {
      RequestAfter(n, cfg, runs[..|runs| - 1], k);
    }
  }

  /** As long as no script steers, requests are run once each, in their order. */
  lemma {:induction false} InOrder(n: nat, cfg: Config, runs: seq<Run>, k: nat)
    requires Ordered(n, cfg, runs) && k < |runs|
    requires forall i :: 0 <= i < |runs| - 1 ==> Unsteered(runs[i].log)
    ensures runs[k].request == k
  {
    RequestAfter(n, cfg, runs, k);
    if k > 0 {
      InOrder(n, cfg, runs, k - 1);
      UnsteeredNext(runs[k - 1].request + 1, runs[k - 1].log, n);
    }
  }

  lemma {:induction false} OneMoreStep(at: int, carried: nat, log: seq<Step>, step: Step, n: nat)
    requires !step.phase.Check?
    ensures Next(at, log + [step], n) == Aim(Next(at, log, n), step.calls, n)
    ensures Pending(carried, log + [step]) == Pending(carried, log) + Fails(step.calls)
    ensures Found(carried, log + [step]) == Found(carried, log)
    ensures Phases(log + [step]) == Phases(log) + [step.phase]
  {
    assert (log + [step])[..|log|] == log;
  }

  // ----- the worker -----

  lemma {:induction false} OneMoreRound(req: Request, sends: nat)
    ensures UpToSending(req, sends + 1) == UpToSending(req, sends) + Rounds(RetryPresent(req.retry), 1)
  {
    assert Rounds(RetryPresent(req.retry), 1) == [Send] + (if RetryPresent(req.retry) then [Retry] else []);
  }

  class Worker {
    var requestIdx: int
    var maxRequestIdx: int
    var assertionFailures: nat
    var status: Status
    var results: seq<Status>
    var retryIn: int
    var retries: int
    var skip: bool
    ghost var start: int
    ghost var carried: nat
    ghost var log: seq<Step>

    /** The log accounts for where the worker is. */
    ghost predicate Tracked()
      reads this
    {
      && maxRequestIdx + 1 == |results| && 0 <= requestIdx <= |results|
      && requestIdx == Next(start, log, |results|)
      && assertionFailures == Pending(carried, log)
      && Quiet(log)
    }

    method SetRequestIdx(n: int)
      requires 0 <= requestIdx <= maxRequestIdx + 1
      modifies `requestIdx
      ensures 1 <= n <= maxRequestIdx + 1 ==> requestIdx == n - 1
      ensures !(1 <= n <= maxRequestIdx + 1) ==> requestIdx == old(requestIdx)
    {
      var nextIdx := n - 1;
      if nextIdx >= 0 && nextIdx <= maxRequestIdx {
        requestIdx := nextIdx;
      }
    }

    method FinishScenario()
      requires 0 <= requestIdx <= maxRequestIdx + 1
      modifies `requestIdx
      ensures requestIdx == maxRequestIdx + 1
    {
      requestIdx := maxRequestIdx + 1;
    }

    method FailAssert()
      modifies `assertionFailures
      ensures assertionFailures == old(assertionFailures) + 1
    {
      assertionFailures := assertionFailures + 1;
    }

    /** What scripts call, call by call. */
    method MakeCalls(calls: seq<Call>)
      requires 0 <= requestIdx <= maxRequestIdx + 1
      modifies `requestIdx, `assertionFailures
      ensures 0 <= requestIdx <= maxRequestIdx + 1
      ensures requestIdx == Aim(old(requestIdx), calls, maxRequestIdx + 1)
      ensures assertionFailures == old(assertionFailures) + Fails(calls)
    {
      for i := 0 to |calls|
        invariant 0 <= requestIdx <= maxRequestIdx + 1
        invariant requestIdx == Aim(old(requestIdx), calls[..i], maxRequestIdx + 1)
        invariant assertionFailures == old(assertionFailures) + Fails(calls[..i])
      {
        assert calls[..i + 1][..i] == calls[..i];
        match calls[i] {
          case Jump(n) => SetRequestIdx(n);
          case Finish => FinishScenario();
          case Fail => FailAssert();
        }
      }
      assert calls[..|calls|] == calls;
    }

    /** A phase: its scripts make any calls, and it ends anyhow. */
    method Execute(phase: Phase) returns (o: Outcome)
      requires Tracked() && !phase.Check?
      modifies `requestIdx, `assertionFailures, `log
      ensures Tracked() && Phases(log) == old(Phases(log)) + [phase]
      ensures Found(carried, log) == old(Found(carried, log))
    {
      var calls: seq<Call> := [];
      if !phase.Parse? && !phase.Send? {
        calls := *;
      }
      OneMoreStep(start, carried, log, Step(phase, calls), maxRequestIdx + 1);
      MakeCalls(calls);
      log := log + [Step(phase, calls)];
      o := *;
    }

    method HandleError(o: Outcome, idx: nat)
      requires idx < |results|
      modifies `status, `results
      ensures if o.Err? then
          && status == (if o.cancelled then Aborted else Error)
          && results == old(results)[idx := status]
        else status == old(status) && results == old(results)
    {
      if o.Err? {
        status := if o.cancelled then Aborted else Error;
        results := results[idx := status];
      }
    }

    method RunPre(req: Request, idx: nat) returns (o: Outcome)
      requires Tracked() && idx < |results| && log == [] && !skip
      modifies `requestIdx, `assertionFailures, `log, `status, `results, `skip
      ensures Tracked() && !Found(carried, log) && |results| == |old(results)|
      ensures Phases(log) == (if Present(req.pre) then [Pre] else []) && (skip ==> Present(req.pre))
      ensures Handled(old(status), old(results), o, idx)
    {
      if !Present(req.pre) {
        return Fine;
      }
      o := Execute(Pre);
      skip := *;
      HandleError(o, idx);
    }

    /** An error, and nothing else, was noted for the request and the scenario. */
    ghost predicate Handled(status0: Status, results0: seq<Status>, o: Outcome, idx: nat)
      reads this
    {
      idx < |results0| &&
      if o.Err? then status == (if o.cancelled then Aborted else Error) && results == results0[idx := status]
      else status == status0 && results == results0
    }

    /** One of the phases that always take place. */
    method RunPhase(phase: Phase, idx: nat) returns (o: Outcome)
      requires Tracked() && idx < |results| && !phase.Check?
      modifies `requestIdx, `assertionFailures, `log, `status, `results
      ensures Tracked() && Phases(log) == old(Phases(log)) + [phase]
      ensures Found(carried, log) == old(Found(carried, log))
      ensures Handled(old(status), old(results), o, idx)
    {
      o := Execute(phase);
      HandleError(o, idx);
    }

    method RunRetry(req: Request, idx: nat) returns (o: Outcome)
      requires Tracked() && idx < |results|
      modifies `requestIdx, `assertionFailures, `log, `status, `results, `retryIn
      ensures Tracked() && Phases(log) == old(Phases(log)) + (if RetryPresent(req.retry) then [Retry] else [])
      ensures Found(carried, log) == old(Found(carried, log))
      ensures !RetryPresent(req.retry) ==> o == Fine && retryIn == -1
      ensures Handled(old(status), old(results), o, idx)
    {
      if !RetryPresent(req.retry) {
        retryIn := -1;
        return Fine;
      }
      o := RunPhase(Retry, idx);
      retryIn := *;
    }

    /** One sending, with the retry script and the wait that may follow. */
    method Attempt(req: Request, idx: nat) returns (o: Outcome)
      requires Tracked() && idx < |results|
      modifies `requestIdx, `assertionFailures, `log, `status, `results, `retryIn
      ensures Tracked() && Found(carried, log) == old(Found(carried, log))
      ensures Phases(log) <= old(Phases(log)) + Rounds(RetryPresent(req.retry), 1)
      ensures o.Fine? ==> Phases(log) == old(Phases(log)) + Rounds(RetryPresent(req.retry), 1)
      ensures o.Fine? && !RetryPresent(req.retry) ==> retryIn < 0
      ensures Handled(old(status), old(results), o, idx)
    {
      o := RunPhase(Send, idx);
      if !o.Fine? {
        return;
      }
      o := RunRetry(req, idx);
      if o.Fine? && retryIn > 0 {
        var interrupted: bool := *;
        if interrupted {
          var cancelled: bool := *;
          o := Err(cancelled);
          HandleError(o, idx);
        }
      }
    }

    method Run(req: Request, cfg: Config, idx: nat) returns (o: Outcome, ghost sends: nat)
      requires Tracked() && idx < |results| && retryIn == 0 && retries == 0
      requires Phases(log) == UpToSending(req, 0) && !Found(carried, log)
      modifies `requestIdx, `assertionFailures, `log, `status, `results, `retryIn, `retries
      ensures Tracked() && Allowed(req, cfg, sends) && !Found(carried, log)
      ensures o.Fine? ==> sends > 0 && Phases(log) == UpToSending(req, sends)
      ensures Phases(log) <= UpToSending(req, sends)
      ensures Handled(old(status), old(results), o, idx)
    {
      while retryIn >= 0
        invariant Tracked() && !Found(carried, log) && retries >= 0 && Phases(log) == UpToSending(req, retries)
        invariant Allowed(req, cfg, retries)
        invariant retryIn >= 0 && !RetryPresent(req.retry) ==> retries == 0
        invariant retryIn < 0 ==> retries > 0
        invariant status == old(status) && results == old(results)
        decreases cfg.maxRetries - retries
      {
        sends := retries;
        if retries > cfg.maxRetries {
          o := Err(false);
          HandleError(o, idx);
          return;
        }
        retries := retries + 1;
        OneMoreRound(req, sends);
        sends := retries;
        o := Attempt(req, idx);
        if !o.Fine? {
          return;
        }
      }
      o, sends := Fine, retries;
    }

    /** Up to the last response. */
    method Prepare(req: Request, cfg: Config, idx: nat) returns (o: Outcome, ghost sends: nat)
      requires Tracked() && idx < |results| && retryIn == 0 && retries == 0 && !skip && log == []
      modifies `requestIdx, `assertionFailures, `log, `status, `results, `retryIn, `retries, `skip
      ensures Tracked() && !Found(carried, log) && Allowed(req, cfg, sends)
      ensures Phases(log) <= UpToSending(req, sends)
      ensures o.Fine? && skip ==> Present(req.pre) && Phases(log) == [Pre]
      ensures o.Fine? && !skip ==> sends > 0 && Phases(log) == UpToSending(req, sends)
      ensures Handled(old(status), old(results), o, idx)
    {
      sends := 0;
      o := RunPre(req, idx);
      if !o.Fine? || skip {
        return;
      }
      o := RunPhase(Materialize, idx);
      if !o.Fine? {
        return;
      }
      o := RunPhase(Parse, idx);
      if !o.Fine? {
        return;
      }
      o, sends := Run(req, cfg, idx);
    }

    /** What follows the last response; `goOn` tells whether the scenario may go on. */
    method Judge(req: Request, cfg: Config, idx: nat, ghost sends: nat) returns (goOn: bool, o: Outcome)
      requires Tracked() && idx < |results| && !Found(carried, log)
      requires sends > 0 && Allowed(req, cfg, sends) && Phases(log) == UpToSending(req, sends)
      modifies `requestIdx, `assertionFailures, `log, `status, `results
      ensures Tracked() && |results| == |old(results)|
      ensures Phases(log) <= Full(req, sends)
      ensures o.Fine? ==>
        Phases(log) == if Found(carried, log) && cfg.failFast then UpToCheck(req, sends) else Full(req, sends)
      ensures goOn <==> o.Fine? && !(Found(carried, log) && cfg.failFast)
      ensures Found(carried, log) && cfg.failFast ==> o.Fine?
      ensures if o.Err? then status == (if o.cancelled then Aborted else Error)
        && results == old(results)[idx := status]
        else if Found(carried, log) then status == Failure && results == old(results)[idx := Failure]
        else status == old(status) && results == old(results)
    {
      o := Fine;
      if Present(req.asserts) {
        o := RunPhase(Assert, idx);
      }
      if !o.Fine? {
        return false, o;
      }
      var failed := CheckAssertions(idx);
      if failed && cfg.failFast {
        return false, Fine;
      }
      if Present(req.post) {
        o := RunPhase(Post, idx);
      }
      goOn := o.Fine?;
    }

    /** Failed assertions are noted and forgotten. */
    method CheckAssertions(idx: nat) returns (failed: bool)
      requires Tracked() && idx < |results|
      modifies `assertionFailures, `log, `status, `results
      ensures Tracked() && Phases(log) == old(Phases(log)) + [Check]
      ensures failed == Found(carried, log) == (old(assertionFailures) > 0)
      ensures if failed then status == Failure && results == old(results)[idx := Failure]
        else status == old(status) && results == old(results)
    {
      failed := assertionFailures > 0;
      log := log + [Step(Check, [])];
      assert log[..|log| - 1] == old(log);
      if failed {
        results := results[idx := Failure];
        status := Failure;
        assertionFailures := 0;
      }
    }

    /** All of a request but for the last word on its status. */
    method Attend(req: Request, cfg: Config, idx: nat) returns (goOn: bool, panicked: bool, ghost run: Run)
      requires Tracked() && idx < |results| && retryIn == 0 && retries == 0 && !skip && log == []
      modifies `requestIdx, `assertionFailures, `log, `status, `results, `retryIn, `retries, `skip
      ensures Tracked() && run == Ran(idx, carried, log, run.end) && Lawful(req, cfg, run)
      ensures goOn <==> GoesOn(cfg, run)
      ensures panicked <==> run.end == Stopped(Panic)
      ensures results == if Own(run) == Success then old(results) else old(results)[idx := Own(run)]
      ensures run.end != Stopped(Panic) ==> status == StatusAfter(old(status), run)
    {
      var o;
      ghost var sends;
      o, sends := Prepare(req, cfg, idx);
      assert UpToSending(req, sends) <= Full(req, sends);
      if !o.Fine? {
        return false, o.Panic?, Ran(idx, carried, log, Stopped(o));
      }
      if skip {
        results := results[idx := Skipped];
        return true, false, Ran(idx, carried, log, Skip);
      }
      goOn, o := Judge(req, cfg, idx, sends);
      panicked := o.Panic?;
      run := Ran(idx, carried, log, if o.Fine? then Done else Stopped(o));
    }

    method Finalize(idx: nat)
      requires idx < |results|
      modifies `results
      ensures results == if old(results)[idx] == Unset then old(results)[idx := Success] else old(results)
    {
      if results[idx] == Unset {
        results := results[idx := Success];
      }
    }

    /** Not even begun. */
    method Refuse(req: Request, cfg: Config, idx: nat, cancelled: bool) returns (ghost run: Run)
      requires idx < |results|
      modifies `status, `results
      ensures run == Ran(idx, assertionFailures, [], Stopped(Err(cancelled))) && Lawful(req, cfg, run)
      ensures status == StatusAfter(old(status), run) && results == old(results)[idx := Own(run)]
    {
      status := if cancelled then Aborted else Error;
      results := results[idx := status];
      run := Ran(idx, assertionFailures, [], Stopped(Err(cancelled)));
      assert Allowed(req, cfg, 0) && Phases([]) <= Full(req, 0);
    }

    method Begin(req: Request, cfg: Config, idx: nat) returns (goOn: bool, panicked: bool, ghost run: Run)
      requires idx < |results| && maxRequestIdx + 1 == |results| && 0 <= requestIdx <= |results|
      modifies this
      ensures maxRequestIdx == old(maxRequestIdx) && 0 <= requestIdx <= |results|
      ensures run == Ran(idx, old(assertionFailures), run.log, run.end) && Lawful(req, cfg, run)
      ensures requestIdx == Next(old(requestIdx), run.log, |results|)
      ensures assertionFailures == Pending(run.carried, run.log)
      ensures goOn <==> GoesOn(cfg, run)
      ensures panicked <==> run.end == Stopped(Panic)
      ensures results == old(results)[idx := Own(run)]
      ensures !panicked ==> status == StatusAfter(old(status), run)
    {
      start, carried, log := requestIdx, assertionFailures, [];
      results := results[idx := Unset];
      retryIn, retries, skip := 0, 0, false;
      goOn, panicked, run := Attend(req, cfg, idx);
      Finalize(idx);
    }

    /**
     `expired` tells whether the context has ended, and `cancelled` whether by cancelling or by running out of time.
     */
    method ProcessRequest(req: Request, cfg: Config, idx: nat, expired: bool, cancelled: bool)
        returns (goOn: bool, panicked: bool, ghost run: Run)
      requires idx < |results| && maxRequestIdx + 1 == |results| && 0 <= requestIdx <= |results|
      modifies this
      ensures maxRequestIdx == old(maxRequestIdx) && 0 <= requestIdx <= |results|
      ensures run == Ran(idx, old(assertionFailures), run.log, run.end) && Lawful(req, cfg, run)
      ensures requestIdx == Next(old(requestIdx), run.log, |results|)
      ensures assertionFailures == Pending(run.carried, run.log)
      ensures goOn <==> GoesOn(cfg, run)
      ensures panicked <==> run.end == Stopped(Panic)
      ensures expired ==> run.end == Stopped(Err(cancelled))
      ensures results == old(results)[idx := Own(run)]
      ensures !panicked ==> status == StatusAfter(old(status), run)
    {
      if expired {
        run := Refuse(req, cfg, idx, cancelled);
        return false, false, run;
      }
      goOn, panicked, run := Begin(req, cfg, idx);
    }

    /**
     The whole scenario.  The context lasts for `patience` requests and then ends by cancelling or by running
     out of time; with no end to it a scenario that keeps going back would go on for ever.
     */
    method ProcessScenario(requests: seq<Request>, cfg: Config, run: bool, patience: nat, cancelled: bool)
        returns (result: ScenarioResult, ghost runs: seq<Run>)
      modifies this
      ensures Course(requests, cfg, runs)
      ensures !run ==> runs == [] && result == ScenarioResult(Unset, ResultsOf(|requests|, []))
      ensures run ==> result == ScenarioResult(StatusOf(runs), ResultsOf(|requests|, runs))
      ensures run && (runs == [] || GoesOn(cfg, Last(runs))) ==> NextRequest(runs, |requests|) == |requests|
    {
      results, runs := seq(|requests|, i => Unset), [];
      if !run {
        return ScenarioResult(Unset, results), [];
      }
      requestIdx, maxRequestIdx, assertionFailures, status := 0, |requests| - 1, 0, Success;
      var left, goOn, panicked := patience, 0 < |requests|, false;
      while goOn
        invariant maxRequestIdx + 1 == |requests| == |results| && 0 <= requestIdx <= |requests|
        invariant Course(requests, cfg, runs)
        invariant requestIdx == NextRequest(runs, |requests|) && assertionFailures == CarriedOver(runs)
        invariant results == ResultsOf(|requests|, runs)
        invariant panicked ==> StatusOf(runs) == Error
        invariant !panicked ==> status == StatusOf(runs)
        invariant goOn ==> requestIdx < |requests| && !panicked
        invariant goOn && runs != [] ==> GoesOn(cfg, Last(runs))
        invariant !goOn && (runs == [] || GoesOn(cfg, Last(runs))) ==> requestIdx == |requests|
        decreases goOn, left
      {
        var oldRequestIdx := requestIdx;
        requestIdx := requestIdx + 1;
        ghost var ran;
        goOn, panicked, ran := ProcessRequest(requests[oldRequestIdx], cfg, oldRequestIdx, left == 0, cancelled);
        OneMoreRun(requests, cfg, runs, ran);
        ResultsOfOneMore(|requests|, runs, ran);
        runs := runs + [ran];
        goOn := goOn && requestIdx < |requests|;
        left := if left == 0 then 0 else left - 1;
      }
      result := ScenarioResult(if panicked then Error else status, results);
    }
  }
}
