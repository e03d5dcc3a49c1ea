/**
 The way of a task from the data source through the workers to the reporters (internal/runner/runner.go,
 internal/reporter/reporter.go).
 */
module Pipeline {
  import opened Prelude
  import opened Verdict

  // A step system over bounded channels.  Cancelling is one of the steps.  What a scenario's outcome is,
  // and whether and when a reporter reads, is arbitrary.

  type Task = nat

  datatype Result = Result(task: Task, outcome: ScenarioResult)

  datatype Worker = Ready | Running(task: Task) | Reporting(result: Result) | Gone

  /** The fan-out: taking the next result, handing one to the reporters from the `to`-th on, or finished. */
  datatype FanOut = Pull | Push(result: Result, to: nat) | Finished

  /** The sizes that never change: room in the task and result channels, room in each reporter's channel. */
  datatype Sizes = Sizes(workers: nat, size: nat)

  datatype State = State(
    cancelled: bool,
    pending: seq<Task>,          // not dispatched yet
    taskCh: seq<Task>,
    taskClosed: bool,
    workers: seq<Worker>,
    resCh: seq<Result>,
    resClosed: bool,
    fan: FanOut,
    chans: seq<seq<Result>>,     // what reporters have not read yet
    emitted: seq<Result>,        // all results ever put into resCh
    dropped: seq<Task>,          // tasks whose result was given up on cancellation
    heard: seq<seq<Result>>)     // all results ever handed to each reporter

  datatype Step =
    | Cancel
    | Dispatch
    | StopDispatching
    | Receive(w: nat)
    | Process(w: nat, outcome: ScenarioResult)
    | Report(w: nat)
    | GiveUp(w: nat)
    | Leave(w: nat)
    | CloseResults
    | Take
    | Hand
    | CloseReporters
    | Read(reporter: nat)

  predicate Enabled(z: Sizes, s: State, step: Step) {
    match step
    case Cancel => true
    case Dispatch => !s.taskClosed && s.pending != [] && |s.taskCh| < z.workers
    case StopDispatching => !s.taskClosed && (s.pending == [] || s.cancelled)
    case Receive(w) => w < |s.workers| && s.workers[w].Ready? && s.taskCh != []
    case Process(w, _) => w < |s.workers| && s.workers[w].Running?
    case Report(w) => w < |s.workers| && s.workers[w].Reporting? && |s.resCh| < z.workers
    case GiveUp(w) => w < |s.workers| && s.workers[w].Reporting? && s.cancelled
    case Leave(w) => w < |s.workers| && s.workers[w].Ready? && (s.cancelled || (s.taskCh == [] && s.taskClosed))
    case CloseResults => !s.resClosed && forall w :: w in s.workers ==> w.Gone?
    case Take => s.fan.Pull? && s.resCh != []
    case Hand => s.fan.Push? && (s.fan.to < |s.chans| ==> |s.chans[s.fan.to]| < z.size)
    case CloseReporters => s.fan.Pull? && s.resCh == [] && s.resClosed
    case Read(r) => r < |s.chans| && s.chans[r] != []
  }

  function Set(s: State, w: nat, worker: Worker): State
    requires w < |s.workers|
  {
    s.(workers := s.workers[w := worker])
  }

  predicate WellFormed(s: State) {
    |s.heard| == |s.chans|
  }

  function Apply(z: Sizes, s: State, step: Step): State
    requires WellFormed(s) && Enabled(z, s, step)
  {
    match step
    case Cancel => s.(cancelled := true)
    case Dispatch => s.(pending := s.pending[1..], taskCh := s.taskCh + [s.pending[0]])
    case StopDispatching => s.(taskClosed := true)
    case Receive(w) => Set(s, w, Running(s.taskCh[0])).(taskCh := s.taskCh[1..])
    case Process(w, o) => Set(s, w, Reporting(Result(s.workers[w].task, o)))
    case Report(w) =>
      var r := s.workers[w].result;
      Set(s, w, Ready).(resCh := s.resCh + [r], emitted := s.emitted + [r])
    case GiveUp(w) => Set(s, w, Ready).(dropped := s.dropped + [s.workers[w].result.task])
    case Leave(w) => Set(s, w, Gone)
    case CloseResults => s.(resClosed := true)
    case Take => s.(fan := Push(s.resCh[0], 0), resCh := s.resCh[1..])
    case Hand =>
      var Push(r, i) := s.fan;
      if i < |s.chans| then
        s.(fan := Push(r, i + 1), chans := s.chans[i := s.chans[i] + [r]], heard := s.heard[i := s.heard[i] + [r]])
      else s.(fan := Pull)
    case CloseReporters => s.(fan := Finished)
    case Read(r) => s.(chans := s.chans[r := s.chans[r][1..]])
  }

  function Begin(tasks: seq<Task>, z: Sizes, reporters: nat): State {
    State(false, tasks, [], false, seq(z.workers, i => Ready), [], false, Pull,
          seq(reporters, i => []), [], [], seq(reporters, i => []))
  }

  function After(z: Sizes, s: State, steps: seq<Step>): Option<State>
    requires WellFormed(s)
    decreases |steps|
  {
    if steps == [] then Some(s)
    else if Enabled(z, s, steps[0]) then After(z, Apply(z, s, steps[0]), steps[1..])
    else None
  }

  // ----- the invariant -----

  function Holds(w: Worker, t: Task): nat {
    match w
    case Running(task) => if task == t then 1 else 0
    case Reporting(r) => if r.task == t then 1 else 0
    case _ => 0
  }

  function InHand(ws: seq<Worker>, t: Task): nat {
    if ws == [] then 0 else Holds(ws[0], t) + InHand(ws[1..], t)
  }

  function ResultsFor(rs: seq<Result>, t: Task): nat {
    if rs == [] then 0 else ResultsFor(rs[..|rs| - 1], t) + (if rs[|rs| - 1].task == t then 1 else 0)
  }

  /** Wherever it is, a task is there as often as it was in the list. */
  predicate Conserved(tasks: seq<Task>, s: State, t: Task) {
    multiset(s.pending)[t] + multiset(s.taskCh)[t] + InHand(s.workers, t) + ResultsFor(s.emitted, t)
      + multiset(s.dropped)[t]
    == multiset(tasks)[t]
  }

  function Busy(ws: seq<Worker>): nat {
    if ws == [] then 0 else (if ws[0].Running? || ws[0].Reporting? then 1 else 0) + Busy(ws[1..])
  }

  predicate Counted(tasks: seq<Task>, s: State) {
    |s.pending| + |s.taskCh| + Busy(s.workers) + |s.emitted| + |s.dropped| == |tasks|
  }

  /** The results the fan-out has taken: all that were emitted but for those still in the channel. */
  function Taken(s: State): seq<Result>
    requires |s.resCh| <= |s.emitted|
  {
    s.emitted[..|s.emitted| - |s.resCh|]
  }

  predicate QueueOk(s: State) {
    && |s.resCh| <= |s.emitted| && s.emitted == Taken(s) + s.resCh
    && (s.fan.Push? ==> |Taken(s)| > 0 && Taken(s)[|Taken(s)| - 1] == s.fan.result && s.fan.to <= |s.chans|)
  }

  /** Reporter `i` has heard all results taken so far, but for the one that is being handed out and not yet to it. */
  predicate HeardOk(s: State, i: nat)
    requires WellFormed(s) && i < |s.chans| && QueueOk(s)
  {
    && |s.chans[i]| <= |s.heard[i]|
    && s.heard[i] == if s.fan.Push? && s.fan.to <= i then Taken(s)[..|Taken(s)| - 1] else Taken(s)
  }

  predicate Closing(s: State) {
    && (s.resClosed ==> forall w :: w in s.workers ==> w.Gone?)
    && (s.fan.Finished? ==> s.resClosed && s.resCh == [])
    && (!s.cancelled ==> s.dropped == [] && (s.taskClosed ==> s.pending == []))
    && (!s.cancelled && (exists w :: w in s.workers && w.Gone?) ==> s.taskClosed && s.taskCh == [])
  }

  ghost predicate Ok(z: Sizes, tasks: seq<Task>, s: State) {
    && WellFormed(s)
    && |s.workers| == z.workers
    && (forall t :: Conserved(tasks, s, t))
    && Counted(tasks, s)
    && QueueOk(s)
    && (forall i :: 0 <= i < |s.chans| ==> HeardOk(s, i))
    && Closing(s)
  }

  // ----- every step keeps it -----

  lemma {:induction false} WorkersAfter(ws: seq<Worker>, i: nat, w: Worker, t: Task)
    requires i < |ws|
    ensures InHand(ws[i := w], t) + Holds(ws[i], t) == InHand(ws, t) + Holds(w, t)
    ensures Busy(ws[i := w]) + Busy([ws[i]]) == Busy(ws) + Busy([w])
  {
    var ws' := ws[i := w];
    if i == 0 {
      assert ws'[1..] == ws[1..];
    } else {
      assert ws'[1..] == ws[1..][i - 1 := w];
      WorkersAfter(ws[1..], i - 1, w, t);
    }
  }

  lemma ReceiveKeepsTasks(z: Sizes, tasks: seq<Task>, s: State, w: nat, t: Task)
    requires WellFormed(s) && Enabled(z, s, Receive(w)) && Conserved(tasks, s, t) && Counted(tasks, s)
    ensures Conserved(tasks, Apply(z, s, Receive(w)), t) && Counted(tasks, Apply(z, s, Receive(w)))
  {
    CountOfHead(s.taskCh, t);
    WorkersAfter(s.workers, w, Running(s.taskCh[0]), t);
  }

  lemma ReportKeepsTasks(z: Sizes, tasks: seq<Task>, s: State, w: nat, t: Task)
    requires WellFormed(s) && Enabled(z, s, Report(w)) && Conserved(tasks, s, t) && Counted(tasks, s)
    ensures Conserved(tasks, Apply(z, s, Report(w)), t) && Counted(tasks, Apply(z, s, Report(w)))
  {
    WorkersAfter(s.workers, w, Ready, t);
    var emitted := s.emitted + [s.workers[w].result];
    assert emitted[..|emitted| - 1] == s.emitted;
  }

  lemma GiveUpKeepsTasks(z: Sizes, tasks: seq<Task>, s: State, w: nat, t: Task)
    requires WellFormed(s) && Enabled(z, s, GiveUp(w)) && Conserved(tasks, s, t) && Counted(tasks, s)
    ensures Conserved(tasks, Apply(z, s, GiveUp(w)), t) && Counted(tasks, Apply(z, s, GiveUp(w)))
  {
    WorkersAfter(s.workers, w, Ready, t);
    CountOfLast(s.dropped, s.workers[w].result.task, t);
  }

  lemma DispatchKeepsTasks(z: Sizes, tasks: seq<Task>, s: State, t: Task)
    requires WellFormed(s) && Enabled(z, s, Dispatch) && Conserved(tasks, s, t) && Counted(tasks, s)
    ensures Conserved(tasks, Apply(z, s, Dispatch), t) && Counted(tasks, Apply(z, s, Dispatch))
  {
    CountOfHead(s.pending, t);
    CountOfLast(s.taskCh, s.pending[0], t);
  }

  lemma ProcessKeepsTasks(z: Sizes, tasks: seq<Task>, s: State, w: nat, o: ScenarioResult, t: Task)
    requires WellFormed(s) && Enabled(z, s, Process(w, o)) && Conserved(tasks, s, t) && Counted(tasks, s)
    ensures Conserved(tasks, Apply(z, s, Process(w, o)), t) && Counted(tasks, Apply(z, s, Process(w, o)))
  {
    WorkersAfter(s.workers, w, Reporting(Result(s.workers[w].task, o)), t);
  }

  lemma LeaveKeepsTasks(z: Sizes, tasks: seq<Task>, s: State, w: nat, t: Task)
    requires WellFormed(s) && Enabled(z, s, Leave(w)) && Conserved(tasks, s, t) && Counted(tasks, s)
    ensures Conserved(tasks, Apply(z, s, Leave(w)), t) && Counted(tasks, Apply(z, s, Leave(w)))
  {
    WorkersAfter(s.workers, w, Gone, t);
  }

  lemma StepKeepsTasks(z: Sizes, tasks: seq<Task>, s: State, step: Step, t: Task)
    requires WellFormed(s) && Enabled(z, s, step) && Conserved(tasks, s, t) && Counted(tasks, s)
    ensures Conserved(tasks, Apply(z, s, step), t) && Counted(tasks, Apply(z, s, step))
  {
    match step
    case Dispatch => DispatchKeepsTasks(z, tasks, s, t);
    case Receive(w) => ReceiveKeepsTasks(z, tasks, s, w, t);
    case Report(w) => ReportKeepsTasks(z, tasks, s, w, t);
    case GiveUp(w) => GiveUpKeepsTasks(z, tasks, s, w, t);
    case Process(w, o) => ProcessKeepsTasks(z, tasks, s, w, o, t);
    case Leave(w) => LeaveKeepsTasks(z, tasks, s, w, t);
    case _ =>
  }

  lemma TakeKeepsQueue(emitted: seq<Result>, taken: seq<Result>, queue: seq<Result>)
    requires emitted == taken + queue && queue != []
    ensures emitted == (taken + [queue[0]]) + queue[1..]
    ensures emitted[..|emitted| - |queue[1..]|] == taken + [queue[0]]
  {
  }

  lemma ReportKeepsQueue(emitted: seq<Result>, taken: seq<Result>, queue: seq<Result>, r: Result)
    requires emitted == taken + queue
    ensures emitted + [r] == taken + (queue + [r])
    ensures (emitted + [r])[..|emitted + [r]| - |queue + [r]|] == taken
  {
  }

  lemma OthersKeepQueue(z: Sizes, s: State, step: Step)
    requires WellFormed(s) && Enabled(z, s, step) && !step.Take? && !step.Report?
    ensures Apply(z, s, step).emitted == s.emitted && Apply(z, s, step).resCh == s.resCh
  {
  }

  lemma StepKeepsQueue(z: Sizes, s: State, step: Step)
    requires WellFormed(s) && QueueOk(s) && Enabled(z, s, step)
    ensures QueueOk(Apply(z, s, step))
    ensures Taken(Apply(z, s, step)) == if step.Take? then Taken(s) + [s.resCh[0]] else Taken(s)
  {
    if step.Take? {
      TakeKeepsQueue(s.emitted, Taken(s), s.resCh);
    } else if step.Report? {
      ReportKeepsQueue(s.emitted, Taken(s), s.resCh, s.workers[step.w].result);
    } else {
      OthersKeepQueue(z, s, step);
    }
  }

  lemma HandKeepsHeard(z: Sizes, s: State, i: nat)
    requires WellFormed(s) && QueueOk(s) && Enabled(z, s, Hand) && QueueOk(Apply(z, s, Hand))
    requires Taken(Apply(z, s, Hand)) == Taken(s)
    requires i < |s.chans| && HeardOk(s, i)
    ensures HeardOk(Apply(z, s, Hand), i)
  {
    if s.fan.to == i {
      assert Taken(s)[..|Taken(s)| - 1] + [s.fan.result] == Taken(s);
    }
  }

  lemma StepKeepsHeard(z: Sizes, s: State, step: Step, i: nat)
    requires WellFormed(s) && QueueOk(s) && Enabled(z, s, step) && QueueOk(Apply(z, s, step))
    requires Taken(Apply(z, s, step)) == if step.Take? then Taken(s) + [s.resCh[0]] else Taken(s)
    requires i < |s.chans| && HeardOk(s, i)
    ensures HeardOk(Apply(z, s, step), i)
  {
    if step.Hand? {
      HandKeepsHeard(z, s, i);
    } else {
      var s' := Apply(z, s, step);
      assert s'.heard == s.heard && |s'.chans[i]| <= |s.chans[i]|;
      assert step.Take? || s'.fan == s.fan || step.CloseReporters?;
    }
  }

  lemma StepKeepsClosing(z: Sizes, s: State, step: Step)
    requires WellFormed(s) && Closing(s) && Enabled(z, s, step)
    ensures Closing(Apply(z, s, step))
  {
    var s' := Apply(z, s, step);
    if step.Receive? || step.Process? || step.Report? || step.GiveUp? || step.Leave? {
      assert s.workers[step.w] in s.workers;
      forall w | w in s'.workers && w.Gone?
        ensures w in s.workers || step.Leave?
      {
      }
    }
    if s'.resClosed && !s.resClosed {
      assert step.CloseResults?;
    }
  }

  lemma StepKeepsEveryTask(z: Sizes, tasks: seq<Task>, s: State, step: Step)
    requires WellFormed(s) && Enabled(z, s, step) && Counted(tasks, s)
    requires forall t :: Conserved(tasks, s, t)
    ensures Counted(tasks, Apply(z, s, step))
    ensures forall t :: Conserved(tasks, Apply(z, s, step), t)
  {
    var s' := Apply(z, s, step);
    forall t
      ensures Conserved(tasks, s', t) && Counted(tasks, s')
    {
      assert Conserved(tasks, s, t);
      StepKeepsTasks(z, tasks, s, step, t);
    }
    assert Conserved(tasks, s', 0);
  }

  lemma StepKeepsHearing(z: Sizes, s: State, step: Step)
    requires WellFormed(s) && QueueOk(s) && Enabled(z, s, step)
    requires forall i :: 0 <= i < |s.chans| ==> HeardOk(s, i)
    ensures var s' := Apply(z, s, step);
      WellFormed(s') && QueueOk(s') && forall i :: 0 <= i < |s'.chans| ==> HeardOk(s', i)
  {
    StepKeepsQueue(z, s, step);
    var s' := Apply(z, s, step);
    forall i | 0 <= i < |s'.chans|
      ensures HeardOk(s', i)
    {
      StepKeepsHeard(z, s, step, i);
    }
  }

  lemma StepKeepsWorkers(z: Sizes, s: State, step: Step)
    requires WellFormed(s) && Enabled(z, s, step)
    ensures |Apply(z, s, step).workers| == |s.workers|
  {
  }

  lemma StepKeepsOk(z: Sizes, tasks: seq<Task>, s: State, step: Step)
    requires Ok(z, tasks, s) && Enabled(z, s, step)
    ensures Ok(z, tasks, Apply(z, s, step))
  {
    StepKeepsWorkers(z, s, step);
    StepKeepsHearing(z, s, step);
    StepKeepsClosing(z, s, step);
    StepKeepsEveryTask(z, tasks, s, step);
  }

  lemma {:induction false} RunsKeepOk(z: Sizes, tasks: seq<Task>, s: State, steps: seq<Step>)
    requires Ok(z, tasks, s)
    ensures After(z, s, steps).Some? ==> Ok(z, tasks, After(z, s, steps).value)
    decreases |steps|
  {
    if steps != [] && Enabled(z, s, steps[0]) {
      StepKeepsOk(z, tasks, s, steps[0]);
      RunsKeepOk(z, tasks, Apply(z, s, steps[0]), steps[1..]);
    }
  }

  lemma {:induction false} AllIdle(ws: seq<Worker>, t: Task)
    requires forall w :: w in ws ==> w.Ready? || w.Gone?
    ensures InHand(ws, t) == 0 && Busy(ws) == 0
  {
    if ws != [] {
      assert ws[0] in ws;
      AllIdle(ws[1..], t);
    }
  }

  /** A state that some run leads to. */
  ghost predicate Reachable(z: Sizes, tasks: seq<Task>, reporters: nat, s: State) {
    exists steps :: After(z, Begin(tasks, z, reporters), steps) == Some(s)
  }

  lemma ReachableOk(z: Sizes, tasks: seq<Task>, reporters: nat, s: State)
    requires Reachable(z, tasks, reporters, s)
    ensures Ok(z, tasks, s)
  {
    var begin := Begin(tasks, z, reporters);
    var steps :| After(z, begin, steps) == Some(s);
    AllIdle(begin.workers, 0);
    forall t
      ensures Conserved(tasks, begin, t)
    {
      AllIdle(begin.workers, t);
    }
    RunsKeepOk(z, tasks, begin, steps);
  }

  // ----- what the pipeline guarantees -----

  /** Nothing is ever sent on a channel that has been closed. */
  lemma NoSendAfterClose(z: Sizes, tasks: seq<Task>, reporters: nat, s: State, step: Step)
    requires Reachable(z, tasks, reporters, s) && Enabled(z, s, step)
    ensures step.Dispatch? ==> !s.taskClosed
    ensures step.Report? ==> !s.resClosed
    ensures step.Hand? ==> !s.fan.Finished?
    ensures step.CloseReporters? ==> forall w :: w in s.workers ==> w.Gone?
  {
    ReachableOk(z, tasks, reporters, s);
    if step.Report? {
      assert s.workers[step.w] in s.workers;
    }
  }

  /** With room for every task's result, handing a result on never has to wait, whether or not a reporter reads. */
  lemma HandingOnNeverBlocks(z: Sizes, tasks: seq<Task>, reporters: nat, s: State)
    requires Reachable(z, tasks, reporters, s) && s.fan.Push? && |tasks| <= z.size
    ensures Enabled(z, s, Hand)
  {
    ReachableOk(z, tasks, reporters, s);
    if s.fan.to < |s.chans| {
      assert HeardOk(s, s.fan.to);
    }
  }

  /** When an uncancelled run is over, every reporter has heard exactly one result for every task. */
  lemma EveryTaskIsHeardOnce(z: Sizes, tasks: seq<Task>, reporters: nat, s: State, i: nat, t: Task)
    requires Reachable(z, tasks, reporters, s) && z.workers > 0
    requires s.fan.Finished? && !s.cancelled && i < |s.heard|
    ensures s.heard[i] == s.emitted && |s.heard[i]| == |tasks|
    ensures ResultsFor(s.heard[i], t) == multiset(tasks)[t]
  {
    ReachableOk(z, tasks, reporters, s);
    assert HeardOk(s, i) && Conserved(tasks, s, t);
    AllIdle(s.workers, t);
    assert s.workers[0] in s.workers && s.workers[0].Gone?;
  }

  lemma {:induction false} ResultsForPrefix(rs: seq<Result>, n: nat, t: Task)
    requires n <= |rs|
    ensures ResultsFor(rs[..n], t) <= ResultsFor(rs, t)
    decreases |rs|
  {
    if n < |rs| {
      ResultsForPrefix(rs[..|rs| - 1], n, t);
      assert rs[..|rs| - 1][..n] == rs[..n];
    } else {
      assert rs[..n] == rs;
    }
  }

  /** Cancelled or not, a reporter hears no result twice and none that no task gave. */
  lemma NoResultIsInvented(z: Sizes, tasks: seq<Task>, reporters: nat, s: State, i: nat, t: Task)
    requires Reachable(z, tasks, reporters, s) && i < |s.heard|
    ensures s.heard[i] <= s.emitted && ResultsFor(s.heard[i], t) <= multiset(tasks)[t]
  {
    ReachableOk(z, tasks, reporters, s);
    assert HeardOk(s, i) && Conserved(tasks, s, t);
    assert s.heard[i] == s.emitted[..|s.heard[i]|];
    ResultsForPrefix(s.emitted, |s.heard[i]|, t);
  }

  // ----- it comes to an end by itself -----

  /** A step of the pipeline's own, for which it needs neither the user nor a reporter. */
  predicate Own(step: Step) {
    !step.Cancel? && !step.Read?
  }

  function WorkerLeft(w: Worker, reporters: nat): nat {
    match w
    case Running(_) => reporters + 7
    case Reporting(_) => reporters + 6
    case Ready => 1
    case Gone => 0
  }

  function WorkLeft(ws: seq<Worker>, reporters: nat): nat {
    if ws == [] then 0 else WorkerLeft(ws[0], reporters) + WorkLeft(ws[1..], reporters)
  }

  function Each(k: nat, n: nat): nat {
    if n == 0 then 0 else k + Each(k, n - 1)
  }

  function FanLeft(fan: FanOut, reporters: nat): int {
    match fan
    case Pull => 1
    case Push(_, to) => reporters - to + 2
    case Finished => 0
  }

  /** A bound on the pipeline's own steps still to come. */
  function StepsLeft(s: State): int {
    var n := |s.chans|;
    Each(n + 9, |s.pending|) + Each(n + 8, |s.taskCh|) + WorkLeft(s.workers, n) + Each(n + 4, |s.resCh|)
    + FanLeft(s.fan, n) + (if s.taskClosed then 0 else 1) + (if s.resClosed then 0 else 1)
  }

  lemma {:induction false} WorkLeftAfter(ws: seq<Worker>, i: nat, w: Worker, n: nat)
    requires i < |ws|
    ensures WorkLeft(ws[i := w], n) + WorkerLeft(ws[i], n) == WorkLeft(ws, n) + WorkerLeft(w, n)
  {
    var ws' := ws[i := w];
    if i == 0 {
      assert ws'[1..] == ws[1..];
    } else {
      assert ws'[1..] == ws[1..][i - 1 := w];
      WorkLeftAfter(ws[1..], i - 1, w, n);
    }
  }

  lemma OwnWorkerStepsRunOut(z: Sizes, s: State, step: Step)
    requires WellFormed(s) && QueueOk(s) && Enabled(z, s, step)
    requires step.Receive? || step.Process? || step.Report? || step.GiveUp? || step.Leave?
    ensures StepsLeft(Apply(z, s, step)) < StepsLeft(s)
  {
    WorkLeftAfter(s.workers, step.w, Apply(z, s, step).workers[step.w], |s.chans|);
  }

  lemma NoFewerThanNone(s: State)
    requires QueueOk(s)
    ensures StepsLeft(s) >= 0
  {
  }

  /** Each own step leaves fewer of them. */
  lemma OwnStepsRunOut(z: Sizes, tasks: seq<Task>, reporters: nat, s: State, step: Step)
    requires Reachable(z, tasks, reporters, s) && WellFormed(s) && Enabled(z, s, step) && Own(step)
    ensures 0 <= StepsLeft(Apply(z, s, step)) < StepsLeft(s)
  {
    assert QueueOk(s) by {
      ReachableOk(z, tasks, reporters, s);
    }
    assert QueueOk(Apply(z, s, step)) by {
      StepKeepsQueue(z, s, step);
    }
    NoFewerThanNone(Apply(z, s, step));
    if step.Receive? || step.Process? || step.Report? || step.GiveUp? || step.Leave? {
      OwnWorkerStepsRunOut(z, s, step);
    }
  }

  /**
   Until it is over there is always an own step to take: an uncancelled run cannot get stuck, whatever reporters do.
   */
  lemma NeverStuck(z: Sizes, tasks: seq<Task>, reporters: nat, s: State) returns (step: Step)
    requires Reachable(z, tasks, reporters, s) && z.workers > 0 && |tasks| <= z.size
    requires !s.fan.Finished? && !s.cancelled
    ensures Own(step) && Enabled(z, s, step)
  {
    ReachableOk(z, tasks, reporters, s);
    if s.fan.Push? {
      HandingOnNeverBlocks(z, tasks, reporters, s);
      return Hand;
    }
    if s.resCh != [] {
      return Take;
    }
    if s.resClosed {
      return CloseReporters;
    }
    if w :| 0 <= w < |s.workers| && !s.workers[w].Gone? {
      match s.workers[w]
      case Running(_) => return Process(w, ScenarioResult(Status.Success, []));
      case Reporting(_) => return Report(w);
      case Ready =>
        if s.taskCh != [] {
          return Receive(w);
        } else if s.taskClosed {
          return Leave(w);
        } else if s.pending == [] {
          return StopDispatching;
        } else {
          return Dispatch;
        }
    }
    return CloseResults;
  }
}
