/** The channels and wait groups around the tree walk (internal/treewalker). */
module Discovery {
  import opened Prelude

  // ParseFiletree, startExploration and runWorkers: who closes what, and when the results are all there.
  //
  // What the walk sends is a list given in advance (Explore.dfy says which tasks and errors it holds); what
  // comes of a task is arbitrary.  A step of the system is one send, receive or close.

  datatype Send = ATask | AnError

  /** What comes of a task: so many errors, and a scenario or none. */
  datatype Yield = Yield(errors: nat, found: bool)

  /** `Holding` is with a task in hand, about to look whether the discovery was cancelled. */
  datatype Worker = Waiting | Holding | Busy(left: Yield) | Gone

  datatype State = State(
    cancelled: bool,
    todo: seq<Send>,        // what the walk still has to send
    walking: bool,          // false once the walk has closed the task channel
    entered: bool,          // the walk is in the directory of its next send, which it entered before any cancelling
    tasks: nat,             // in the task channel
    workers: seq<Worker>,
    errors: nat,            // in the error channel
    errorsClosed: bool,
    resultsClosed: bool,
    errorsHeard: nat,
    resultsHeard: nat,
    errorsDone: bool,       // the collectors have seen the channels close
    resultsDone: bool,
    taken: seq<Yield>)      // what came of the tasks taken so far

  datatype Step =
    | Cancel
    | Enter | WalkTask | WalkError | WalkSkip | CloseTasks
    | Receive(w: nat) | Take(w: nat, comes: Yield) | Drop(w: nat) | Leave(w: nat)
    | SendError(w: nat) | SendResult(w: nat) | Finish(w: nat)
    | CloseErrors | CloseResults
    | HearError | EndErrors | EndResults

  predicate AllGone(s: State) {
    forall w :: w in s.workers ==> w.Gone?
  }

  /** `room` is the capacity of the task and of the error channel; results are handed over directly. */
  predicate Enabled(room: nat, s: State, step: Step) {
    match step
    case Cancel => true
    case Enter => s.walking && s.todo != [] && !s.entered && !s.cancelled
    case WalkTask => s.walking && s.todo != [] && s.entered && s.todo[0].ATask? && s.tasks < room
    case WalkError => s.walking && s.todo != [] && s.entered && s.todo[0].AnError? && s.errors < room
    case WalkSkip => s.walking && s.todo != [] && s.cancelled
    case CloseTasks => s.walking && s.todo == []
    case Receive(w) => w < |s.workers| && s.workers[w].Waiting? && s.tasks > 0
    case Take(w, _) => w < |s.workers| && s.workers[w].Holding? && !s.cancelled
    case Drop(w) => w < |s.workers| && s.workers[w].Holding? && s.cancelled
    case Leave(w) => w < |s.workers| && s.workers[w].Waiting? && s.tasks == 0 && !s.walking
    case SendError(w) => w < |s.workers| && s.workers[w].Busy? && s.workers[w].left.errors > 0 && s.errors < room
    case SendResult(w) => w < |s.workers| && s.workers[w] == Busy(Yield(0, true)) && !s.resultsDone
    case Finish(w) => w < |s.workers| && s.workers[w] == Busy(Yield(0, false))
    case CloseErrors => !s.errorsClosed && AllGone(s)
    case CloseResults => !s.resultsClosed && AllGone(s)
    case HearError => !s.errorsDone && s.errors > 0
    case EndErrors => !s.errorsDone && s.errors == 0 && s.errorsClosed
    case EndResults => !s.resultsDone && s.resultsClosed
  }

  function Set(s: State, w: nat, worker: Worker): State
    requires w < |s.workers|
  {
    s.(workers := s.workers[w := worker])
  }

  function Apply(room: nat, s: State, step: Step): State
    requires Enabled(room, s, step)
  {
    match step
    case Cancel => s.(cancelled := true)
    case Enter => s.(entered := true)
    case WalkTask => s.(todo := s.todo[1..], entered := false, tasks := s.tasks + 1)
    case WalkError => s.(todo := s.todo[1..], entered := false, errors := s.errors + 1)
    case WalkSkip => s.(todo := s.todo[1..], entered := false)
    case CloseTasks => s.(walking := false)
    case Receive(w) => Set(s, w, Holding).(tasks := s.tasks - 1)
    case Take(w, y) => Set(s, w, Busy(y)).(taken := s.taken + [y])
    case Drop(w) => Set(s, w, Gone)
    case Leave(w) => Set(s, w, Gone)
    case SendError(w) =>
      var left := s.workers[w].left;
      Set(s, w, Busy(left.(errors := left.errors - 1))).(errors := s.errors + 1)
    case SendResult(w) => Set(s, w, Waiting).(resultsHeard := s.resultsHeard + 1)
    case Finish(w) => Set(s, w, Waiting)
    case CloseErrors => s.(errorsClosed := true)
    case CloseResults => s.(resultsClosed := true)
    case HearError => s.(errors := s.errors - 1, errorsHeard := s.errorsHeard + 1)
    case EndErrors => s.(errorsDone := true)
    case EndResults => s.(resultsDone := true)
  }

  function Begin(walk: seq<Send>, workers: nat): State {
    State(false, walk, true, false, 0, seq(workers, i => Waiting), 0, false, false, 0, 0, false, false, [])
  }

  function After(room: nat, s: State, steps: seq<Step>): Option<State>
    decreases |steps|
  {
    if steps == [] then Some(s)
    else if Enabled(room, s, steps[0]) then After(room, Apply(room, s, steps[0]), steps[1..])
    else None
  }

  /** ParseFiletree returns: the walk is over and both collectors are through. */
  predicate Over(s: State) {
    !s.walking && s.errorsDone && s.resultsDone
  }

  // ----- the invariant -----

  function TasksIn(walk: seq<Send>): nat {
    if walk == [] then 0 else (if walk[0].ATask? then 1 else 0) + TasksIn(walk[1..])
  }

  function ErrorsIn(walk: seq<Send>): nat {
    if walk == [] then 0 else (if walk[0].AnError? then 1 else 0) + ErrorsIn(walk[1..])
  }

  function ErrorsOf(ys: seq<Yield>): nat {
    if ys == [] then 0 else ErrorsOf(ys[..|ys| - 1]) + ys[|ys| - 1].errors
  }

  function FoundIn(ys: seq<Yield>): nat {
    if ys == [] then 0 else FoundIn(ys[..|ys| - 1]) + (if ys[|ys| - 1].found then 1 else 0)
  }

  function HeldOf(w: Worker): nat {
    if w.Holding? then 1 else 0
  }

  function HeldBy(ws: seq<Worker>): nat {
    if ws == [] then 0 else HeldOf(ws[0]) + HeldBy(ws[1..])
  }

  function ErrorsLeft(ws: seq<Worker>): nat {
    if ws == [] then 0 else (if ws[0].Busy? then ws[0].left.errors else 0) + ErrorsLeft(ws[1..])
  }

  function FoundLeft(ws: seq<Worker>): nat {
    if ws == [] then 0 else (if ws[0].Busy? && ws[0].left.found then 1 else 0) + FoundLeft(ws[1..])
  }

  predicate Counted(walk: seq<Send>, s: State) {
    && (!s.cancelled ==>
          && TasksIn(walk) == TasksIn(s.todo) + s.tasks + HeldBy(s.workers) + |s.taken|
          && ErrorsIn(walk) + ErrorsOf(s.taken) == ErrorsIn(s.todo) + ErrorsLeft(s.workers) + s.errors + s.errorsHeard)
    && FoundIn(s.taken) == FoundLeft(s.workers) + s.resultsHeard
  }

  predicate SomeGone(s: State) {
    exists w :: 0 <= w < |s.workers| && s.workers[w].Gone?
  }

  predicate Closing(s: State) {
    && (s.errorsClosed || s.resultsClosed ==> AllGone(s))
    && (!s.cancelled && SomeGone(s) ==> !s.walking && s.tasks == 0)
    && (!s.walking && !s.cancelled ==> s.todo == [])
    && (s.errorsDone ==> s.errorsClosed) && (s.resultsDone ==> s.resultsClosed)
    && (s.errorsDone && !s.cancelled ==> s.errors == 0)
  }

  predicate Ok(walk: seq<Send>, workers: nat, s: State) {
    |s.workers| == workers > 0 && Counted(walk, s) && Closing(s)
  }

  lemma {:induction false} LeftAfter(ws: seq<Worker>, i: nat, w: Worker)
    requires i < |ws|
    ensures ErrorsLeft(ws[i := w]) + ErrorsLeft([ws[i]]) == ErrorsLeft(ws) + ErrorsLeft([w])
    ensures FoundLeft(ws[i := w]) + FoundLeft([ws[i]]) == FoundLeft(ws) + FoundLeft([w])
  {
    var ws' := ws[i := w];
    if i == 0 {
      assert ws'[1..] == ws[1..];
    } else {
      assert ws'[1..] == ws[1..][i - 1 := w];
      LeftAfter(ws[1..], i - 1, w);
    }
  }

  lemma {:induction false} HeldAfter(ws: seq<Worker>, i: nat, w: Worker)
    requires i < |ws|
    ensures HeldBy(ws[i := w]) + HeldOf(ws[i]) == HeldBy(ws) + HeldOf(w)
  {
    var ws' := ws[i := w];
    if i == 0 {
      assert ws'[1..] == ws[1..];
    } else {
      assert ws'[1..] == ws[1..][i - 1 := w];
      HeldAfter(ws[1..], i - 1, w);
    }
  }

  lemma OneMoreTaken(ys: seq<Yield>, y: Yield)
    ensures ErrorsOf(ys + [y]) == ErrorsOf(ys) + y.errors
    ensures FoundIn(ys + [y]) == FoundIn(ys) + (if y.found then 1 else 0)
  {
    assert (ys + [y])[..|ys|] == ys;
  }

  predicate OfWorker(step: Step) {
    step.Receive? || step.Take? || step.Drop? || step.Leave? || step.SendError? || step.SendResult? || step.Finish?
  }

  lemma TakeKeepsCount(room: nat, walk: seq<Send>, s: State, w: nat, y: Yield)
    requires Counted(walk, s) && Enabled(room, s, Take(w, y))
    ensures Counted(walk, Apply(room, s, Take(w, y)))
  {
    LeftAfter(s.workers, w, Busy(y));
    HeldAfter(s.workers, w, Busy(y));
    OneMoreTaken(s.taken, y);
  }

  lemma WorkerKeepsCount(room: nat, walk: seq<Send>, s: State, step: Step)
    requires Counted(walk, s) && Enabled(room, s, step) && OfWorker(step)
    ensures Counted(walk, Apply(room, s, step))
  {
    if step.Take? {
      TakeKeepsCount(room, walk, s, step.w, step.comes);
    } else {
      LeftAfter(s.workers, step.w, Apply(room, s, step).workers[step.w]);
      HeldAfter(s.workers, step.w, Apply(room, s, step).workers[step.w]);
    }
  }

  lemma StepKeepsCount(room: nat, walk: seq<Send>, s: State, step: Step)
    requires Counted(walk, s) && Enabled(room, s, step)
    ensures Counted(walk, Apply(room, s, step)) && |Apply(room, s, step).workers| == |s.workers|
  {
    if OfWorker(step) {
      WorkerKeepsCount(room, walk, s, step);
    }
  }

  lemma StepKeepsClosing(room: nat, s: State, step: Step)
    requires Closing(s) && s.workers != [] && Enabled(room, s, step)
    ensures Closing(Apply(room, s, step))
  {
    var s' := Apply(room, s, step);
    if OfWorker(step) {
      assert s.workers[step.w] in s.workers;
      forall w | 0 <= w < |s'.workers| && s'.workers[w].Gone?
        ensures SomeGone(s) || step.Drop? || step.Leave?
      {
        assert w != step.w ==> s.workers[w].Gone?;
      }
    } else {
      assert s'.workers == s.workers;
    }
    assert s.workers[0] in s.workers;
  }

  lemma {:induction false} RunsKeepOk(room: nat, walk: seq<Send>, workers: nat, s: State, steps: seq<Step>)
    requires Ok(walk, workers, s)
    ensures After(room, s, steps).Some? ==> Ok(walk, workers, After(room, s, steps).value)
    decreases |steps|
  {
    if steps != [] && Enabled(room, s, steps[0]) {
      StepKeepsCount(room, walk, s, steps[0]);
      StepKeepsClosing(room, s, steps[0]);
      RunsKeepOk(room, walk, workers, Apply(room, s, steps[0]), steps[1..]);
    }
  }

  /** A state that some run leads to. */
  ghost predicate Reachable(room: nat, walk: seq<Send>, workers: nat, s: State) {
    exists steps :: After(room, Begin(walk, workers), steps) == Some(s)
  }

  lemma {:induction false} NothingLeft(ws: seq<Worker>)
    requires forall i :: 0 <= i < |ws| ==> !ws[i].Busy? && !ws[i].Holding?
    ensures HeldBy(ws) == 0 && ErrorsLeft(ws) == 0 && FoundLeft(ws) == 0
  {
    if ws != [] {
      NothingLeft(ws[1..]);
    }
  }

  lemma ReachableOk(room: nat, walk: seq<Send>, workers: nat, s: State)
    requires Reachable(room, walk, workers, s) && workers > 0
    ensures Ok(walk, workers, s)
  {
    var begin := Begin(walk, workers);
    var steps :| After(room, begin, steps) == Some(s);
    NothingLeft(begin.workers);
    RunsKeepOk(room, walk, workers, begin, steps);
  }

  // ----- what the protocol guarantees -----

  /** A worker never sends on a closed channel, cancelled or not; the walk can do so only after cancelling. */
  lemma NoSendAfterClose(room: nat, walk: seq<Send>, workers: nat, s: State, step: Step)
    requires Reachable(room, walk, workers, s) && workers > 0 && Enabled(room, s, step)
    ensures step.SendError? ==> !s.errorsClosed
    ensures step.SendResult? ==> !s.resultsClosed
    ensures step.WalkError? && s.errorsClosed ==> s.cancelled
    ensures step.WalkTask? ==> s.walking
  {
    ReachableOk(room, walk, workers, s);
    if step.SendError? || step.SendResult? {
      assert s.workers[step.w] in s.workers;
    }
    if step.WalkError? && s.errorsClosed {
      assert s.workers[0] in s.workers;
      assert SomeGone(s);
    }
  }

  lemma {:induction false} AfterOneMore(room: nat, s: State, steps: seq<Step>, step: Step)
    requires After(room, s, steps).Some? && Enabled(room, After(room, s, steps).value, step)
    ensures After(room, s, steps + [step]) == Some(Apply(room, After(room, s, steps).value, step))
    decreases |steps|
  {
    var all := steps + [step];
    if steps == [] {
      assert all[1..] == [];
    } else {
      assert all[1..] == steps[1..] + [step];
      AfterOneMore(room, Apply(room, s, steps[0]), steps[1..], step);
    }
  }

  lemma ReachableNext(room: nat, walk: seq<Send>, workers: nat, s: State, step: Step)
    requires Reachable(room, walk, workers, s) && Enabled(room, s, step)
    ensures Reachable(room, walk, workers, Apply(room, s, step))
  {
    var steps :| After(room, Begin(walk, workers), steps) == Some(s);
    AfterOneMore(room, Begin(walk, workers), steps, step);
  }

  // ----- when the walk may send on a closed channel -----

  /** The walk can choose to send an error on the closed channel; a closed channel is never full. */
  predicate SendsOnClosed(s: State) {
    s.errorsClosed && s.walking && s.todo != [] && s.entered && s.todo[0].AnError?
  }

  function GoneIn(ws: seq<Worker>): nat {
    if ws == [] then 0 else (if ws[0].Gone? then 1 else 0) + GoneIn(ws[1..])
  }

  lemma {:induction false} GoneAfter(ws: seq<Worker>, i: nat, w: Worker)
    requires i < |ws|
    ensures GoneIn(ws[i := w]) + (if ws[i].Gone? then 1 else 0) == GoneIn(ws) + (if w.Gone? then 1 else 0)
  {
    var ws' := ws[i := w];
    if i == 0 {
      assert ws'[1..] == ws[1..];
    } else {
      assert ws'[1..] == ws[1..][i - 1 := w];
      GoneAfter(ws[1..], i - 1, w);
    }
  }

  lemma {:induction false} NoneGone(ws: seq<Worker>)
    requires forall i :: 0 <= i < |ws| ==> !ws[i].Gone?
    ensures GoneIn(ws) == 0
  {
    if ws != [] {
      NoneGone(ws[1..]);
    }
  }

  lemma {:induction false} EachGone(ws: seq<Worker>)
    requires forall i :: 0 <= i < |ws| ==> ws[i].Gone?
    ensures GoneIn(ws) == |ws|
  {
    if ws != [] {
      EachGone(ws[1..]);
    }
  }

  lemma {:induction false} SendsOfOneMore(walk: seq<Send>, k: nat)
    requires k < |walk|
    ensures TasksIn(walk[..k + 1]) == TasksIn(walk[..k]) + (if walk[k].ATask? then 1 else 0)
    ensures ErrorsIn(walk[..k + 1]) == ErrorsIn(walk[..k]) + (if walk[k].AnError? then 1 else 0)
  {
    if k > 0 {
      assert walk[..k + 1][1..] == walk[1..][..k] && walk[..k][1..] == walk[1..][..k - 1];
      SendsOfOneMore(walk[1..], k - 1);
    }
  }

  /** How far the walk is. */
  function Passed(walk: seq<Send>, s: State): int {
    |walk| - |s.todo|
  }

  /** While the walk goes on, each worker that is gone was sent off with a task of its own. */
  ghost predicate Dismissed(walk: seq<Send>, s: State) {
    && 0 <= Passed(walk, s) && s.todo == walk[Passed(walk, s)..]
    && (s.walking ==> GoneIn(s.workers) + HeldBy(s.workers) + s.tasks <= TasksIn(walk[..Passed(walk, s)]))
  }

  lemma StepKeepsDismissed(room: nat, walk: seq<Send>, s: State, step: Step)
    requires Dismissed(walk, s) && Enabled(room, s, step)
    ensures Dismissed(walk, Apply(room, s, step))
  {
    if OfWorker(step) {
      GoneAfter(s.workers, step.w, Apply(room, s, step).workers[step.w]);
      HeldAfter(s.workers, step.w, Apply(room, s, step).workers[step.w]);
    } else if step.WalkTask? || step.WalkError? || step.WalkSkip? {
      SendsOfOneMore(walk, Passed(walk, s));
    }
  }

  lemma {:induction false} RunsKeepDismissed(room: nat, walk: seq<Send>, s: State, steps: seq<Step>)
    requires Dismissed(walk, s)
    ensures After(room, s, steps).Some? ==> Dismissed(walk, After(room, s, steps).value)
    decreases |steps|
  {
    if steps != [] && Enabled(room, s, steps[0]) {
      StepKeepsDismissed(room, walk, s, steps[0]);
      RunsKeepDismissed(room, walk, Apply(room, s, steps[0]), steps[1..]);
    }
  }

  /** An error lies behind at least as many tasks as there are workers. */
  predicate LateError(walk: seq<Send>, workers: nat, i: nat) {
    i < |walk| && walk[i].AnError? && TasksIn(walk[..i]) >= workers
  }

  lemma OnlyOnLateErrors(room: nat, walk: seq<Send>, workers: nat, s: State)
    requires Reachable(room, walk, workers, s) && workers > 0 && SendsOnClosed(s)
    ensures s.cancelled && 0 <= Passed(walk, s) && LateError(walk, workers, Passed(walk, s))
  {
    ReachableOk(room, walk, workers, s);
    var begin := Begin(walk, workers);
    var steps :| After(room, begin, steps) == Some(s);
    NoneGone(begin.workers);
    NothingLeft(begin.workers);
    assert walk[0..] == walk;
    RunsKeepDismissed(room, walk, begin, steps);
    forall w | 0 <= w < |s.workers|
      ensures s.workers[w].Gone?
    {
      assert s.workers[w] in s.workers;
    }
    EachGone(s.workers);
    assert s.workers[0].Gone? && SomeGone(s);
  }

  /**
   The walk is `k` sends on.  Of the tasks it sent the first `early` came to nothing, and each one behind
   them is in the hands of a worker of its own.
   */
  function InHands(walk: seq<Send>, workers: nat, early: nat, k: nat): State
    requires k <= |walk|
  {
    var sent := TasksIn(walk[..k]);
    Begin(walk, workers).(
      todo := walk[k..],
      workers := seq(workers, w => if early + w < sent then Holding else Waiting),
      errorsHeard := ErrorsIn(walk[..k]),
      taken := seq(if sent < early then sent else early, i => Yield(0, false)))
  }

  /** One more send, with what is made of it. */
  lemma InHandsNext(walk: seq<Send>, workers: nat, early: nat, k: nat)
    requires k < |walk| && workers > 0 && (walk[k].ATask? ==> TasksIn(walk[..k]) < early + workers)
    ensures var s, sent := InHands(walk, workers, early, k), TasksIn(walk[..k]);
      var s' := s.(todo := s.todo[1..]);
      InHands(walk, workers, early, k + 1) ==
        if walk[k].AnError? then s'.(errorsHeard := s.errorsHeard + 1)
        else if sent < early then s'.(taken := s.taken + [Yield(0, false)])
        else Set(s', sent - early, Holding)
    ensures var s, sent := InHands(walk, workers, early, k), TasksIn(walk[..k]);
      s.todo != [] && s.todo[0] == walk[k]
        && (walk[k].ATask? ==> s.workers[if sent < early then 0 else sent - early].Waiting?)
  {
    SendsOfOneMore(walk, k);
    var s, t := InHands(walk, workers, early, k), InHands(walk, workers, early, k + 1);
    assert t.todo == s.todo[1..];
    var sent := TasksIn(walk[..k]);
    if walk[k].AnError? || sent < early {
      assert t.workers == s.workers;
    } else {
      assert t.workers == s.workers[sent - early := Holding];
    }
    if walk[k].ATask? && sent < early {
      assert t.taken == s.taken + [Yield(0, false)];
    } else {
      assert t.taken == s.taken;
    }
  }

  lemma ErrorIsHeard(room: nat, walk: seq<Send>, workers: nat, s: State)
    requires Reachable(room, walk, workers, s) && Enabled(room, s, WalkError) && s.errors == 0 && !s.errorsDone
    ensures Reachable(room, walk, workers, s.(todo := s.todo[1..], entered := false, errorsHeard := s.errorsHeard + 1))
  {
    ReachableNext(room, walk, workers, s, WalkError);
    ReachableNext(room, walk, workers, Apply(room, s, WalkError), HearError);
  }

  lemma TaskIsHeld(room: nat, walk: seq<Send>, workers: nat, s: State, w: nat)
    requires Reachable(room, walk, workers, s) && Enabled(room, s, WalkTask) && s.tasks == 0
    requires w < |s.workers| && s.workers[w].Waiting?
    ensures Reachable(room, walk, workers, Set(s, w, Holding).(todo := s.todo[1..], entered := false))
  {
    ReachableNext(room, walk, workers, s, WalkTask);
    ReachableNext(room, walk, workers, Apply(room, s, WalkTask), Receive(w));
  }

  lemma TaskComesToNothing(room: nat, walk: seq<Send>, workers: nat, s: State)
    requires Reachable(room, walk, workers, s) && Enabled(room, s, WalkTask) && s.tasks == 0 && !s.cancelled
    requires s.workers != [] && s.workers[0].Waiting?
    ensures Reachable(room, walk, workers,
      s.(todo := s.todo[1..], entered := false, taken := s.taken + [Yield(0, false)]))
  {
    TaskIsHeld(room, walk, workers, s, 0);
    var s' := Set(s, 0, Holding).(todo := s.todo[1..], entered := false);
    ReachableNext(room, walk, workers, s', Take(0, Yield(0, false)));
    s' := Apply(room, s', Take(0, Yield(0, false)));
    ReachableNext(room, walk, workers, s', Finish(0));
    assert s'.workers[0 := Waiting] == s.workers;
  }

  lemma {:induction false} InHandsIsReachable(room: nat, walk: seq<Send>, workers: nat, early: nat, k: nat)
    requires room > 0 && workers > 0 && k <= |walk| && TasksIn(walk[..k]) <= early + workers
    ensures Reachable(room, walk, workers, InHands(walk, workers, early, k))
  {
    if k == 0 {
      assert walk[..0] == [] && walk[0..] == walk;
      assert InHands(walk, workers, early, 0) == Begin(walk, workers);
      assert After(room, Begin(walk, workers), []) == Some(Begin(walk, workers));
    } else {
      var s, sent := InHands(walk, workers, early, k - 1), TasksIn(walk[..k - 1]);
      SendsOfOneMore(walk, k - 1);
      InHandsNext(walk, workers, early, k - 1);
      InHandsIsReachable(room, walk, workers, early, k - 1);
      ReachableNext(room, walk, workers, s, Enter);
      var s' := Apply(room, s, Enter);
      if walk[k - 1].AnError? {
        ErrorIsHeard(room, walk, workers, s');
      } else if sent < early {
        TaskComesToNothing(room, walk, workers, s');
      } else {
        TaskIsHeld(room, walk, workers, s', sent - early);
      }
    }
  }

  /** Once the discovery is cancelled, workers with a task in hand leave one by one. */
  lemma {:induction false} AllLeave(room: nat, walk: seq<Send>, workers: nat, s: State, n: nat)
    requires Reachable(room, walk, workers, s) && s.cancelled && n <= |s.workers|
    requires forall w :: 0 <= w < |s.workers| ==> s.workers[w] == if w < n then Holding else Gone
    ensures Reachable(room, walk, workers, s.(workers := seq(|s.workers|, w => Gone)))
    decreases n
  {
    if n == 0 {
      assert s.workers == seq(|s.workers|, w => Gone);
    } else {
      ReachableNext(room, walk, workers, s, Drop(n - 1));
      AllLeave(room, walk, workers, Apply(room, s, Drop(n - 1)), n - 1);
    }
  }

  lemma LateErrorsMeetClosed(room: nat, walk: seq<Send>, workers: nat, i: nat) returns (s: State)
    requires room > 0 && workers > 0 && LateError(walk, workers, i)
    ensures Reachable(room, walk, workers, s) && SendsOnClosed(s) && Enabled(room, s, WalkError)
  {
    var early := TasksIn(walk[..i]) - workers;
    s := InHands(walk, workers, early, i);
    InHandsIsReachable(room, walk, workers, early, i);
    ReachableNext(room, walk, workers, s, Enter);
    s := Apply(room, s, Enter);
    ReachableNext(room, walk, workers, s, Cancel);
    s := Apply(room, s, Cancel);
    AllLeave(room, walk, workers, s, workers);
    s := s.(workers := seq(|s.workers|, w => Gone));
    ReachableNext(room, walk, workers, s, CloseErrors);
    s := Apply(room, s, CloseErrors);
  }

  /**
   Some run comes to where the walk can send on a closed channel if and only if some directory cannot be
   read and comes after at least as many lists of files as there are workers.
   */
  lemma WalkMaySendAfterCloseIff(room: nat, walk: seq<Send>, workers: nat)
    requires room > 0 && workers > 0
    ensures (exists s :: Reachable(room, walk, workers, s) && SendsOnClosed(s)) <==>
      exists i: nat :: LateError(walk, workers, i)
  {
    if s :| Reachable(room, walk, workers, s) && SendsOnClosed(s) {
      OnlyOnLateErrors(room, walk, workers, s);
    }
    if i: nat :| LateError(walk, workers, i) {
      var s := LateErrorsMeetClosed(room, walk, workers, i);
    }
  }

  /** The least such walk: the only worker is sent off with the one task, and the error comes after it. */
  lemma CancelledWalkMaySendAfterClose()
    ensures exists s :: Reachable(1, [ATask, AnError], 1, s) && SendsOnClosed(s)
  {
    var walk := [ATask, AnError];
    assert walk[..1] == [ATask] && [ATask][1..] == [];
    var s := LateErrorsMeetClosed(1, walk, 1, 1);
  }

  /** When an uncancelled discovery returns, every task was taken once and every error and every scenario was heard. */
  lemma NothingIsLost(room: nat, walk: seq<Send>, workers: nat, s: State)
    requires Reachable(room, walk, workers, s) && workers > 0 && Over(s) && !s.cancelled
    ensures |s.taken| == TasksIn(walk)
    ensures s.errorsHeard == ErrorsIn(walk) + ErrorsOf(s.taken)
    ensures s.resultsHeard == FoundIn(s.taken)
  {
    ReachableOk(room, walk, workers, s);
    forall i | 0 <= i < |s.workers|
      ensures s.workers[i].Gone?
    {
      assert s.workers[i] in s.workers;
    }
    assert SomeGone(s) by {
      assert s.workers[0].Gone?;
    }
    NothingLeft(s.workers);
  }

  /** Until it returns there is a step to take other than cancelling. */
  lemma NeverStuck(room: nat, walk: seq<Send>, workers: nat, s: State) returns (step: Step)
    requires Reachable(room, walk, workers, s) && workers > 0 && room > 0 && !s.cancelled && !Over(s)
    ensures !step.Cancel? && Enabled(room, s, step)
  {
    ReachableOk(room, walk, workers, s);
    if s.errors > 0 && !s.errorsDone {
      return HearError;
    }
    if w :| 0 <= w < |s.workers| && s.workers[w].Busy? {
      assert s.workers[w] in s.workers;
      var left := s.workers[w].left;
      return if left.errors > 0 then SendError(w) else if left.found then SendResult(w) else Finish(w);
    }
    if w :| 0 <= w < |s.workers| && s.workers[w].Holding? {
      return Take(w, Yield(0, false));
    }
    if w :| 0 <= w < |s.workers| && s.workers[w].Waiting? {
      assert s.workers[w] in s.workers;
      if s.tasks > 0 {
        return Receive(w);
      } else if !s.walking {
        return Leave(w);
      } else if s.todo == [] {
        return CloseTasks;
      } else if !s.entered {
        return Enter;
      }
      return if s.todo[0].ATask? then WalkTask else WalkError;
    }
    assert AllGone(s) && s.workers[0].Gone?;
    assert SomeGone(s);
    if !s.errorsClosed {
      return CloseErrors;
    } else if !s.resultsClosed {
      return CloseResults;
    } else if !s.errorsDone {
      return EndErrors;
    }
    return EndResults;
  }

  // ----- it comes to an end -----

  function WorkOf(w: Worker): nat {
    match w
    case Waiting => 1
    case Holding => 1
    case Busy(left) => 2 * left.errors + 2
    case Gone => 0
  }

  function WorkLeft(ws: seq<Worker>): nat {
    if ws == [] then 0 else WorkOf(ws[0]) + WorkLeft(ws[1..])
  }

  lemma {:induction false} WorkAfter(ws: seq<Worker>, i: nat, w: Worker)
    requires i < |ws|
    ensures WorkLeft(ws[i := w]) + WorkOf(ws[i]) == WorkLeft(ws) + WorkOf(w)
  {
    var ws' := ws[i := w];
    if i == 0 {
      assert ws'[1..] == ws[1..];
    } else {
      assert ws'[1..] == ws[1..][i - 1 := w];
      WorkAfter(ws[1..], i - 1, w);
    }
  }

  /** First what was not taken yet, then what is at hand. */
  function Ahead(s: State): nat {
    3 * |s.todo| + 2 * s.tasks + HeldBy(s.workers)
  }

  function AtHand(s: State): nat {
    WorkLeft(s.workers) + s.errors + (if s.walking then 1 else 0) + (if s.entered then 0 else 1)
    + (if s.errorsClosed then 0 else 1) + (if s.resultsClosed then 0 else 1)
    + (if s.errorsDone then 0 else 1) + (if s.resultsDone then 0 else 1)
  }

  lemma WorkersStepsRunOut(room: nat, s: State, step: Step)
    requires Enabled(room, s, step) && OfWorker(step)
    ensures var s' := Apply(room, s, step);
      Ahead(s') < Ahead(s) || (Ahead(s') == Ahead(s) && AtHand(s') < AtHand(s))
  {
    var w := Apply(room, s, step).workers[step.w];
    WorkAfter(s.workers, step.w, w);
    HeldAfter(s.workers, step.w, w);
  }

  /** Every step but cancelling uses up work, so a discovery whose tasks yield finitely many errors ends. */
  lemma StepsRunOut(room: nat, s: State, step: Step)
    requires Enabled(room, s, step) && !step.Cancel?
    ensures var s' := Apply(room, s, step);
      Ahead(s') < Ahead(s) || (Ahead(s') == Ahead(s) && AtHand(s') < AtHand(s))
  {
    if OfWorker(step) {
      WorkersStepsRunOut(room, s, step);
    }
  }
}
