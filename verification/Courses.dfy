/** Where scripts take a scenario, and what a run of a request consists of. */
module Courses {
  import opened Lexing
  import opened Scenarios

  // ----- where scripts steer -----

  /** Whether a call decides where to go: a jump outside the scenario does not. */
  predicate Steers(c: Call, n: nat) {
    c.Finish? || (c.Jump? && 1 <= c.n <= n)
  }

  function Target(c: Call, n: nat): int
    requires Steers(c, n)
  {
    if c.Jump? then c.n - 1 else n
  }

  /** The last call that steers, if one does. */
  ghost predicate LastSteering(calls: seq<Call>, n: nat, j: nat) {
    j < |calls| && Steers(calls[j], n) && forall i :: j < i < |calls| ==> !Steers(calls[i], n)
  }

  lemma {:induction false} LastCallAims(at: int, calls: seq<Call>, n: nat)
    ensures forall j: nat :: LastSteering(calls, n, j) ==> Aim(at, calls, n) == Target(calls[j], n)
    ensures (forall i :: 0 <= i < |calls| ==> !Steers(calls[i], n)) ==> Aim(at, calls, n) == at
    decreases |calls|
  {
    if calls != [] {
      var front := calls[..|calls| - 1];
      LastCallAims(at, front, n);
      forall j: nat | LastSteering(calls, n, j)
        ensures Aim(at, calls, n) == Target(calls[j], n)
      {
        assert j < |front| ==> LastSteering(front, n, j);
      }
    }
  }

  /** All calls of a run, in order. */
  function CallsIn(log: seq<Step>): seq<Call> {
    if log == [] then [] else CallsIn(log[..|log| - 1]) + log[|log| - 1].calls
  }

  lemma {:induction false} AimOnward(at: int, calls: seq<Call>, more: seq<Call>, n: nat)
    ensures Aim(at, calls + more, n) == Aim(Aim(at, calls, n), more, n)
    decreases |more|
  {
    if more == [] {
      assert calls + more == calls;
    } else {
      assert (calls + more)[..|calls + more| - 1] == calls + more[..|more| - 1];
      AimOnward(at, calls, more[..|more| - 1], n);
    }
  }

  lemma {:induction false} NextIsAim(at: int, log: seq<Step>, n: nat)
    ensures Next(at, log, n) == Aim(at, CallsIn(log), n)
    decreases |log|
  {
    if log != [] {
      NextIsAim(at, log[..|log| - 1], n);
      AimOnward(at, CallsIn(log[..|log| - 1]), log[|log| - 1].calls, n);
    }
  }

  lemma {:induction false} RequestBelow(n: nat, cfg: Config, runs: seq<Run>, k: nat)
    requires Ordered(n, cfg, runs) && k < |runs|
    ensures runs[k].request < n
    decreases |runs|
  {
    if k < |runs| - 1 {
      RequestBelow(n, cfg, runs[..|runs| - 1], k);
    }
  }

  /**
   The last call of a run that steers decides: `setNextRequest(k)` goes to the `k`-th request, and behind
   `finishScenario()` nothing more is run.  A jump outside the scenario leaves standing what was decided before, and
   without a decision the request behind this one is next.
   */
  lemma LastCallDecides(n: nat, cfg: Config, runs: seq<Run>, i: nat)
    requires Ordered(n, cfg, runs) && i < |runs|
    ensures var calls := CallsIn(runs[i].log);
      && (forall j: nat, k :: LastSteering(calls, n, j) && calls[j] == Jump(k) && i + 1 < |runs| ==>
            runs[i + 1].request == k - 1)
      && (forall j: nat :: LastSteering(calls, n, j) && calls[j] == Finish ==> i + 1 == |runs|)
      && ((forall j :: 0 <= j < |calls| ==> !Steers(calls[j], n)) && i + 1 < |runs| ==>
            runs[i + 1].request == runs[i].request + 1)
  {
    if i + 1 < |runs| {
      RequestAfter(n, cfg, runs, i + 1);
      RequestBelow(n, cfg, runs, i + 1);
      NextIsAim(runs[i].request + 1, runs[i].log, n);
      LastCallAims(runs[i].request + 1, CallsIn(runs[i].log), n);
    }
  }

  // ----- failed assertions -----

  predicate IsCheck(log: seq<Step>, i: nat)
    requires i < |log|
  {
    log[i].phase.Check?
  }

  /** A failed assertion that no check before the `k`-th step has seen. */
  predicate FailedBefore(carried: nat, log: seq<Step>, k: nat)
    requires k <= |log|
  {
    || (carried > 0 && forall m :: 0 <= m < k ==> !IsCheck(log, m))
    || exists i :: 0 <= i < k && Fail in log[i].calls && forall m :: i <= m < k ==> !IsCheck(log, m)
  }

  lemma {:induction false} SomeFails(calls: seq<Call>)
    ensures Fails(calls) > 0 <==> Fail in calls
    decreases |calls|
  {
    if calls != [] {
      SomeFails(calls[..|calls| - 1]);
      assert calls == calls[..|calls| - 1] + [calls[|calls| - 1]];
    }
  }

  lemma FailedBeforeStays(carried: nat, log: seq<Step>, k: nat)
    requires k <= |log|
    ensures FailedBefore(carried, log[..k], k) <==> FailedBefore(carried, log, k)
  {
    assert forall m :: 0 <= m < k ==> log[..k][m] == log[m] && (IsCheck(log[..k], m) <==> IsCheck(log, m));
  }

  lemma {:induction false} PendingIff(carried: nat, log: seq<Step>)
    ensures Pending(carried, log) > 0 <==> FailedBefore(carried, log, |log|)
    decreases |log|
  {
    if log != [] {
      var n := |log| - 1;
      PendingIff(carried, log[..n]);
      FailedBeforeStays(carried, log, n);
      SomeFails(log[n].calls);
      if FailedBefore(carried, log, |log|) {
        assert !IsCheck(log, n);
      }
    }
  }

  /**
   The check finds a failed assertion if and only if one was left over or made before it, and no earlier check has
   seen it; what is said of a run is what its last check found.
   */
  lemma {:induction false} FoundIff(carried: nat, log: seq<Step>)
    ensures Found(carried, log) <==>
      exists k :: 0 <= k < |log| && IsCheck(log, k) && FailedBefore(carried, log, k)
        && forall m :: k < m < |log| ==> !IsCheck(log, m)
    decreases |log|
  {
    if log != [] {
      var n := |log| - 1;
      if IsCheck(log, n) {
        PendingIff(carried, log[..n]);
        FailedBeforeStays(carried, log, n);
      } else {
        FoundIff(carried, log[..n]);
        forall k | 0 <= k < n
          ensures IsCheck(log[..n], k) <==> IsCheck(log, k)
          ensures FailedBefore(carried, log[..n], k) <==> FailedBefore(carried, log, k)
        {
          assert log[..n][..k] == log[..k];
          FailedBeforeStays(carried, log[..n], k);
          FailedBeforeStays(carried, log, k);
        }
      }
    }
  }

  // ----- phases -----

  function Rank(p: Phase): nat {
    match p
    case Pre => 0
    case Materialize => 1
    case Parse => 2
    case Send => 3
    case Retry => 3
    case Assert => 4
    case Check => 5
    case Post => 6
  }

  /** Of two phases the later one comes later; only sending and retrying take turns. */
  predicate Rising(phases: seq<Phase>) {
    forall i, j :: 0 <= i < j < |phases| ==>
      Rank(phases[i]) < Rank(phases[j]) || Rank(phases[i]) == Rank(phases[j]) == Rank(Send)
  }

  /** Where a retry script is run, a sending comes before it, and behind a sending there is no other one. */
  predicate TakesTurns(phases: seq<Phase>, i: nat)
    requires i < |phases|
  {
    && (phases[i] == Retry ==> i > 0 && phases[i - 1] == Send)
    && (phases[i] == Send && i + 1 < |phases| ==> phases[i + 1] != Send)
  }

  predicate Alternates(phases: seq<Phase>) {
    forall i :: 0 <= i < |phases| ==> TakesTurns(phases, i)
  }

  lemma RisingParts(a: seq<Phase>, b: seq<Phase>, rank: nat)
    requires Rising(a) && Rising(b)
    requires forall i :: 0 <= i < |a| ==> Rank(a[i]) < rank
    requires forall i :: 0 <= i < |b| ==> rank <= Rank(b[i])
    ensures Rising(a + b)
  {
    var all := a + b;
    forall i, j | 0 <= i < j < |all|
      ensures Rank(all[i]) < Rank(all[j]) || Rank(all[i]) == Rank(all[j]) == Rank(Send)
    {
      assert all[i] == (if i < |a| then a[i] else b[i - |a|]) && all[j] == (if j < |a| then a[j] else b[j - |a|]);
    }
  }

  lemma {:induction false} RoundsTakeTurns(retry: bool, sends: nat)
    requires sends <= 1 || retry
    ensures var rounds := Rounds(retry, sends);
      && (forall i :: 0 <= i < |rounds| ==> rounds[i] == if retry && i % 2 == 1 then Retry else Send)
      && |rounds| == if retry then 2 * sends else sends
  {
    if sends > 0 {
      RoundsTakeTurns(retry, sends - 1);
    }
  }

  function Head(req: Request): seq<Phase> {
    (if Present(req.pre) then [Pre] else []) + [Materialize, Parse]
  }

  function Tail(req: Request): seq<Phase> {
    (if Present(req.asserts) then [Assert] else []) + [Check] + (if Present(req.post) then [Post] else [])
  }

  lemma FullParts(req: Request, sends: nat)
    ensures Full(req, sends) == Head(req) + (Rounds(RetryPresent(req.retry), sends) + Tail(req))
  {
  }

  predicate NoSending(phases: seq<Phase>) {
    forall i :: 0 <= i < |phases| ==> phases[i] != Send && phases[i] != Retry
  }

  lemma TurnBetween(head: seq<Phase>, rounds: seq<Phase>, tail: seq<Phase>, i: nat)
    requires NoSending(head) && NoSending(tail) && Alternates(rounds) && i < |head + (rounds + tail)|
    ensures TakesTurns(head + (rounds + tail), i)
  {
    var all, k := head + (rounds + tail), i - |head|;
    if 0 <= k < |rounds| {
      assert TakesTurns(rounds, k) && all[i] == rounds[k];
      assert k > 0 ==> all[i - 1] == rounds[k - 1];
      if i + 1 < |all| {
        assert all[i + 1] == if k + 1 < |rounds| then rounds[k + 1] else tail[0];
      }
    } else {
      assert all[i] == if k < 0 then head[i] else tail[k - |rounds|];
    }
  }

  lemma AlternatesBetween(head: seq<Phase>, rounds: seq<Phase>, tail: seq<Phase>)
    requires NoSending(head) && NoSending(tail) && Alternates(rounds)
    ensures Alternates(head + (rounds + tail))
  {
    forall i | 0 <= i < |head + (rounds + tail)|
      ensures TakesTurns(head + (rounds + tail), i)
    {
      TurnBetween(head, rounds, tail, i);
    }
  }

  lemma FullRises(req: Request, sends: nat)
    requires sends <= 1 || RetryPresent(req.retry)
    ensures Rising(Full(req, sends))
  {
    var rounds, tail := Rounds(RetryPresent(req.retry), sends), Tail(req);
    FullParts(req, sends);
    RoundsTakeTurns(RetryPresent(req.retry), sends);
    assert forall j :: 0 <= j < |rounds| ==> Rank(rounds[j]) == 3;
    RisingParts(rounds, tail, 4);
    RisingParts(Head(req), rounds + tail, 3);
  }

  lemma FullAlternates(req: Request, sends: nat)
    requires sends <= 1 || RetryPresent(req.retry)
    ensures Alternates(Full(req, sends))
  {
    FullParts(req, sends);
    RoundsTakeTurns(RetryPresent(req.retry), sends);
    AlternatesBetween(Head(req), Rounds(RetryPresent(req.retry), sends), Tail(req));
  }

  /** However a run ends, its phases come in the one order, and each retry script follows a sending. */
  lemma PhasesInOrder(req: Request, cfg: Config, run: Run)
    requires Lawful(req, cfg, run)
    ensures Rising(Phases(run.log)) && Alternates(Phases(run.log))
  {
    var phases := Phases(run.log);
    if !run.end.Skip? {
      var sends: nat :| Allowed(req, cfg, sends) && phases <= Full(req, sends);
      FullRises(req, sends);
      FullAlternates(req, sends);
      forall i | 0 <= i < |phases|
        ensures TakesTurns(phases, i)
      {
        assert TakesTurns(Full(req, sends), i);
      }
    }
  }

  // ----- which scripts are run -----

  /** A script of at least two bytes; there is none where the token was never set. */
  predicate Written(t: Token) {
    t.payloadEnd - t.payloadStart >= 2 && t.kind != IncompleteToken
  }

  predicate IsRun(req: Request, p: Phase) {
    match p
    case Pre => Written(req.pre)
    case Retry => Written(req.retry) && req.retry.kind == Script
    case Assert => Written(req.asserts)
    case Post => Written(req.post)
    case _ => true
  }

  lemma PhasesOfFull(req: Request, sends: nat, p: Phase)
    requires sends <= 1 || RetryPresent(req.retry)
    ensures p in Full(req, sends) ==> IsRun(req, p)
    ensures sends > 0 && IsRun(req, p) ==> p in Full(req, sends)
    ensures p in UpToCheck(req, sends) <==> p in Full(req, sends) && p != Post
  {
    var rounds := Rounds(RetryPresent(req.retry), sends);
    FullParts(req, sends);
    RoundsTakeTurns(RetryPresent(req.retry), sends);
    if sends > 0 {
      assert rounds[0] == Send;
      assert RetryPresent(req.retry) ==> rounds[1] == Retry;
    }
    assert p in rounds ==> p == Send || (p == Retry && RetryPresent(req.retry));
    assert p in Full(req, sends) <==> p in Head(req) || p in rounds || p in Tail(req);
  }

  /** A script that is not written is never run. */
  lemma OnlyWrittenScripts(req: Request, cfg: Config, run: Run, p: Phase)
    requires Lawful(req, cfg, run) && p in Phases(run.log)
    ensures IsRun(req, p)
  {
    var phases := Phases(run.log);
    if !run.end.Skip? {
      var sends: nat :| Allowed(req, cfg, sends) && phases <= Full(req, sends);
      assert p in Full(req, sends);
      PhasesOfFull(req, sends, p);
    } else {
      assert p == Pre;
    }
  }

  /**
   A run that is done went through all phases but the scripts that are not written; only fail-fast leaves out the
   script behind the check.
   */
  lemma AllPhasesAreRun(req: Request, cfg: Config, run: Run, p: Phase)
    requires Lawful(req, cfg, run) && run.end.Done? && IsRun(req, p)
    ensures p in Phases(run.log) <==> !(p == Post && cfg.failFast && Found(run.carried, run.log))
  {
    var sends: nat :| sends > 0 && Allowed(req, cfg, sends) && Phases(run.log) ==
      if cfg.failFast && Found(run.carried, run.log) then UpToCheck(req, sends) else Full(req, sends);
    PhasesOfFull(req, sends, p);
  }
}
