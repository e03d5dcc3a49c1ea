/** What an uncancelled discovery returns (ParseFiletree in internal/treewalker/treewalker.go). */
module DiscoveredScenarios {
  import opened Prelude
  import opened Explore
  import D = Discovery
  import M = ConfigMemo

  // The protocol of Discovery.dfy and the readers of ConfigMemo.dfy together.  The task channel keeps the order in
  // which the walk sends, so the lists in it are the first ones of the readers' queue, as many as the protocol has
  // in it, and the others are still to be sent.  Nobody cancels: what a cancelled discovery returns is thrown away.

  datatype State = State(protocol: D.State, readers: M.State)

  datatype Step = Move(move: D.Step) | Read(read: M.Step)

  /**
   Which task comes to a scenario is settled when it is taken.  A reader hands a scenario over when it is through
   and found requests.
   */
  predicate Enabled(files: M.Files, room: nat, s: State, step: Step) {
    var readers := s.readers;
    match step
    case Read(read) =>
      && (read.Look? || read.Parse? || read.Save?) && M.Enabled(readers, read)
      && read.w < |s.protocol.workers| && s.protocol.workers[read.w].Busy?
    case Move(move) =>
      && D.Enabled(room, s.protocol, move)
      && match move
         case Cancel => false
         case Receive(w) => M.Enabled(readers, M.Step.Take(w))
         case Take(w, comes) =>
           && w < |readers.workers| && readers.workers[w].Busy?
           && (comes.found <==> M.RequestsOf(files, readers.workers[w].task) != [])
         case SendResult(w) => M.Enabled(readers, M.Step.Finish(w)) && readers.workers[w].requests != []
         case Finish(w) => M.Enabled(readers, M.Step.Finish(w)) && readers.workers[w].requests == []
         case _ => true
  }

  /** What a step of the protocol is to the readers. */
  function Reading(move: D.Step): Option<M.Step> {
    match move
    case Receive(w) => Some(M.Step.Take(w))
    case SendResult(w) => Some(M.Step.Finish(w))
    case Finish(w) => Some(M.Step.Finish(w))
    case _ => None
  }

  function Apply(files: M.Files, room: nat, s: State, step: Step): State
    requires Enabled(files, room, s, step)
  {
    match step
    case Read(read) => s.(readers := M.Apply(files, s.readers, read))
    case Move(move) =>
      State(
        D.Apply(room, s.protocol, move),
        match Reading(move)
        case None => s.readers
        case Some(read) => M.Apply(files, s.readers, read))
  }

  function After(files: M.Files, room: nat, s: State, steps: seq<Step>): Option<State>
    decreases |steps|
  {
    if steps == [] then Some(s)
    else if Enabled(files, room, s, steps[0]) then After(files, room, Apply(files, room, s, steps[0]), steps[1..])
    else None
  }

  function Begin(walk: seq<D.Send>, tasks: seq<Task>, workers: nat): State {
    State(D.Begin(walk, workers), M.Begin(tasks, workers))
  }

  // ----- the invariant -----

  predicate Coupled(files: M.Files, worker: D.Worker, reader: M.Worker) {
    match worker
    case Waiting => reader.Idle?
    case Holding => reader.Busy?
    case Busy(left) => reader.Busy? && (left.found <==> M.RequestsOf(files, reader.task) != [])
    case Gone => reader.Idle?
  }

  predicate AllCoupled(files: M.Files, s: State) {
    && |s.readers.workers| == |s.protocol.workers|
    && forall w :: 0 <= w < |s.protocol.workers| ==> Coupled(files, s.protocol.workers[w], s.readers.workers[w])
  }

  predicate InStep(s: State) {
    && !s.protocol.cancelled
    && |s.readers.queue| == s.protocol.tasks + D.TasksIn(s.protocol.todo)
    && |s.readers.out| == s.protocol.resultsHeard
  }

  /** What the readers' queue and output are after a step of theirs. */
  lemma QueueAfter(files: M.Files, m: M.State, read: M.Step)
    requires M.Enabled(m, read)
    ensures var m' := M.Apply(files, m, read);
      && m'.queue == (if read.Take? then m.queue[1..] else m.queue)
      && |m'.out| == |m.out| + (if read.Finish? && m.workers[read.w].requests != [] then 1 else 0)
  {
  }

  /** What the protocol has of tasks after a step of its own. */
  lemma TasksAfter(room: nat, d: D.State, move: D.Step)
    requires D.Enabled(room, d, move) && !d.cancelled && !move.Cancel?
    ensures var d' := D.Apply(room, d, move);
      d'.tasks + D.TasksIn(d'.todo) == d.tasks + D.TasksIn(d.todo) - (if move.Receive? then 1 else 0)
  {
    var d' := D.Apply(room, d, move);
    if !move.WalkTask? && !move.WalkError? {
      assert d'.todo == d.todo;
    }
  }

  lemma ResultsAfter(room: nat, d: D.State, move: D.Step)
    requires D.Enabled(room, d, move) && !d.cancelled && !move.Cancel?
    ensures var d' := D.Apply(room, d, move);
      !d'.cancelled && d'.resultsHeard == d.resultsHeard + (if move.SendResult? then 1 else 0)
  {
    if move.SendResult? {
    } else if D.OfWorker(move) {
      assert D.Apply(room, d, move).resultsHeard == d.resultsHeard;
    }
  }

  lemma StepKeepsInStep(files: M.Files, room: nat, s: State, step: Step)
    requires InStep(s) && Enabled(files, room, s, step)
    ensures InStep(Apply(files, room, s, step))
  {
    if step.Read? {
      QueueAfter(files, s.readers, step.read);
    } else {
      TasksAfter(room, s.protocol, step.move);
      ResultsAfter(room, s.protocol, step.move);
      if Reading(step.move).Some? {
        QueueAfter(files, s.readers, Reading(step.move).value);
      }
    }
  }

  lemma StepKeepsCoupled(files: M.Files, room: nat, s: State, step: Step)
    requires AllCoupled(files, s) && InStep(s) && Enabled(files, room, s, step)
    ensures AllCoupled(files, Apply(files, room, s, step))
  {
    if step.Read? {
      var w := M.StepOfWorker(files, s.readers, step.read);
    } else if Reading(step.move).Some? {
      var w := M.StepOfWorker(files, s.readers, Reading(step.move).value);
    }
  }

  ghost predicate Ok(
    files: M.Files, before: Path -> Task, room: nat, walk: seq<D.Send>, tasks: seq<Task>, workers: nat, s: State)
  {
    && D.Reachable(room, walk, workers, s.protocol)
    && M.Ok(files, before, tasks, s.readers)
    && InStep(s) && AllCoupled(files, s)
  }

  lemma StepKeepsOk(
    files: M.Files, before: Path -> Task, room: nat, walk: seq<D.Send>, tasks: seq<Task>, workers: nat, s: State,
    step: Step)
    requires M.Determined(tasks, before) && Ok(files, before, room, walk, tasks, workers, s)
    requires Enabled(files, room, s, step)
    ensures Ok(files, before, room, walk, tasks, workers, Apply(files, room, s, step))
  {
    StepKeepsInStep(files, room, s, step);
    StepKeepsCoupled(files, room, s, step);
    if step.Move? {
      D.ReachableNext(room, walk, workers, s.protocol, step.move);
      if Reading(step.move).Some? {
        M.StepKeepsOk(files, before, tasks, s.readers, Reading(step.move).value);
      }
    } else {
      M.StepKeepsOk(files, before, tasks, s.readers, step.read);
    }
  }

  lemma {:induction false} RunsKeepOk(
    files: M.Files, before: Path -> Task, room: nat, walk: seq<D.Send>, tasks: seq<Task>, workers: nat, s: State,
    steps: seq<Step>)
    requires M.Determined(tasks, before) && Ok(files, before, room, walk, tasks, workers, s)
    ensures After(files, room, s, steps).Some? ==>
      Ok(files, before, room, walk, tasks, workers, After(files, room, s, steps).value)
    decreases |steps|
  {
    if steps != [] && Enabled(files, room, s, steps[0]) {
      StepKeepsOk(files, before, room, walk, tasks, workers, s, steps[0]);
      RunsKeepOk(files, before, room, walk, tasks, workers, Apply(files, room, s, steps[0]), steps[1..]);
    }
  }

  /** A state that some run over these lists of files leads to. */
  ghost predicate Reachable(
    files: M.Files, room: nat, walk: seq<D.Send>, tasks: seq<Task>, workers: nat, s: State)
  {
    exists steps :: After(files, room, Begin(walk, tasks, workers), steps) == Some(s)
  }

  lemma ReachableOk(
    files: M.Files, before: Path -> Task, room: nat, walk: seq<D.Send>, tasks: seq<Task>, workers: nat, s: State)
    requires M.Determined(tasks, before) && D.TasksIn(walk) == |tasks|
    requires Reachable(files, room, walk, tasks, workers, s)
    ensures Ok(files, before, room, walk, tasks, workers, s)
  {
    var begin := Begin(walk, tasks, workers);
    M.BeginIsOk(files, before, tasks, workers);
    assert D.After(room, begin.protocol, []) == Some(begin.protocol);
    var steps :| After(files, room, begin, steps) == Some(s);
    RunsKeepOk(files, before, room, walk, tasks, workers, begin, steps);
  }

  // ----- what is returned -----

  lemma {:induction false} ScenariosOfBoth(files: M.Files, a: seq<Task>, b: seq<Task>)
    ensures M.ScenariosOf(files, a + b) == M.ScenariosOf(files, a) + M.ScenariosOf(files, b)
    decreases |b|
  {
    if b == [] {
      assert a + b == a;
    } else {
      assert (a + b)[..|a + b| - 1] == a + b[..|b| - 1];
      ScenariosOfBoth(files, a, b[..|b| - 1]);
    }
  }

  lemma ScenariosWithOneMore(files: M.Files, front: seq<Task>, t: Task, back: seq<Task>)
    ensures multiset(M.ScenariosOf(files, front + ([t] + back))) ==
      multiset(M.ScenariosOf(files, [t])) + multiset(M.ScenariosOf(files, front + back))
  {
    ScenariosOfBoth(files, front, [t] + back);
    ScenariosOfBoth(files, [t], back);
    ScenariosOfBoth(files, front, back);
  }

  lemma TakenOut(b: seq<Task>, t: Task) returns (front: seq<Task>, back: seq<Task>)
    requires t in b
    ensures b == front + ([t] + back) && multiset(b) == multiset{t} + multiset(front + back)
  {
    var i :| 0 <= i < |b| && b[i] == t;
    front, back := b[..i], b[i + 1..];
    assert b == front + ([t] + back);
  }

  lemma SameRest(a: seq<Task>, b: seq<Task>, t: Task)
    requires a != [] && a[0] == t && multiset(a) == multiset{t} + multiset(b)
    ensures multiset(a[1..]) == multiset(b) && a == [] + ([t] + a[1..])
  {
    assert a == [t] + a[1..];
    assert multiset(a) == multiset{t} + multiset(a[1..]);
    assert multiset(a[1..]) == multiset(a) - multiset{t} == multiset(b);
  }

  /** The order of the tasks does not matter. */
  lemma {:induction false} ScenariosOfAnyOrder(files: M.Files, a: seq<Task>, b: seq<Task>)
    requires multiset(a) == multiset(b)
    ensures multiset(M.ScenariosOf(files, a)) == multiset(M.ScenariosOf(files, b))
    decreases |a|
  {
    if a == [] {
      assert |multiset(b)| == |b|;
    } else {
      assert a[0] in multiset(b);
      var front, back := TakenOut(b, a[0]);
      SameRest(a, front + back, a[0]);
      ScenariosOfAnyOrder(files, a[1..], front + back);
      ScenariosWithOneMore(files, [], a[0], a[1..]);
      ScenariosWithOneMore(files, front, a[0], back);
      assert [] + a[1..] == a[1..];
    }
  }

  lemma OverIsQuiet(room: nat, walk: seq<D.Send>, workers: nat, files: M.Files, s: State)
    requires D.Reachable(room, walk, workers, s.protocol) && workers > 0 && D.Over(s.protocol)
    requires InStep(s) && AllCoupled(files, s)
    ensures s.readers.queue == [] && forall r :: r in s.readers.workers ==> r.Idle?
  {
    D.ReachableOk(room, walk, workers, s.protocol);
    forall w | 0 <= w < |s.protocol.workers|
      ensures s.protocol.workers[w].Gone?
    {
      assert s.protocol.workers[w] in s.protocol.workers;
    }
    assert s.protocol.workers[0].Gone? && D.SomeGone(s.protocol);
  }

  /**
   When it returns, what it returns are the scenarios that reading the tree's lists of files without a cache gives,
   each as often as it occurs there, whatever the workers did and whatever errors were sent in between.
   */
  lemma ReturnsTheScenarios(files: M.Files, dir: Directory, room: nat, walk: seq<D.Send>, workers: nat, s: State)
    requires NamesDiffer(dir) && D.TasksIn(walk) == |Tasks([], dir, [])| && workers > 0
    requires Reachable(files, room, walk, Tasks([], dir, []), workers, s) && D.Over(s.protocol)
    ensures multiset(s.readers.out) == multiset(M.ScenariosOf(files, Tasks([], dir, [])))
    ensures s.protocol.resultsHeard == |s.readers.out|
  {
    var tasks := Tasks([], dir, []);
    var before := M.BeforeIn(dir);
    M.TreeIsDetermined(dir);
    ReachableOk(files, before, room, walk, tasks, workers, s);
    OverIsQuiet(room, walk, workers, files, s);
    M.QuietIsDone(files, before, tasks, s.readers);
    ScenariosOfAnyOrder(files, s.readers.done, tasks);
  }

  lemma ReadOrMove(
    files: M.Files, before: Path -> Task, room: nat, tasks: seq<Task>, s: State, move: D.Step, w: nat)
    returns (step: Step)
    requires D.Enabled(room, s.protocol, move) && (move == D.SendResult(w) || move == D.Step.Finish(w))
    requires M.Ok(files, before, tasks, s.readers) && AllCoupled(files, s)
    ensures Enabled(files, room, s, step)
  {
    var reader := s.readers.workers[w];
    assert Coupled(files, s.protocol.workers[w], reader) && M.WorkerOk(files, reader);
    step :=
      if reader.stage.Parse? then Read(M.Step.Parse(w))
      else if reader.stage.Save? then Read(M.Step.Save(w))
      else if reader.at < |reader.task| then Read(M.Step.Look(w))
      else Move(move);
    if step.Move? {
      assert reader.task[..reader.at] == reader.task;
    }
  }

  /** Until it returns, there is a step to take. */
  lemma NeverStuck(files: M.Files, dir: Directory, room: nat, walk: seq<D.Send>, workers: nat, s: State)
    returns (step: Step)
    requires NamesDiffer(dir) && D.TasksIn(walk) == |Tasks([], dir, [])| && workers > 0 && room > 0
    requires Reachable(files, room, walk, Tasks([], dir, []), workers, s) && !D.Over(s.protocol)
    ensures Enabled(files, room, s, step)
  {
    var tasks := Tasks([], dir, []);
    var before := M.BeforeIn(dir);
    M.TreeIsDetermined(dir);
    ReachableOk(files, before, room, walk, tasks, workers, s);
    var move := D.NeverStuck(room, walk, workers, s.protocol);
    match move {
      case Take(w, _) =>
        assert Coupled(files, s.protocol.workers[w], s.readers.workers[w]);
        step := Move(D.Take(w, D.Yield(0, M.RequestsOf(files, s.readers.workers[w].task) != [])));
      case SendResult(w) => step := ReadOrMove(files, before, room, tasks, s, move, w);
      case Finish(w) => step := ReadOrMove(files, before, room, tasks, s, move, w);
      case Receive(w) =>
        assert Coupled(files, s.protocol.workers[w], s.readers.workers[w]);
        step := Move(move);
      case _ => step := Move(move);
    }
  }

  // ----- it comes to an end -----

  function ToRead(r: M.Worker): nat {
    if r.Idle? || r.at >= |r.task| then 0
    else 3 * (|r.task| - r.at) + (match r.stage case Look => 2 case Parse => 1 case Save => 0)
  }

  function AllToRead(rs: seq<M.Worker>): nat {
    if rs == [] then 0 else ToRead(rs[0]) + AllToRead(rs[1..])
  }

  lemma {:induction false} ToReadAfter(rs: seq<M.Worker>, i: nat, r: M.Worker)
    requires i < |rs|
    ensures AllToRead(rs[i := r]) + ToRead(rs[i]) == AllToRead(rs) + ToRead(r)
  {
    var rs' := rs[i := r];
    if i == 0 {
      assert rs'[1..] == rs[1..];
    } else {
      assert rs'[1..] == rs[1..][i - 1 := r];
      ToReadAfter(rs[1..], i - 1, r);
    }
  }

  lemma ReadingRunsOut(files: M.Files, m: M.State, read: M.Step)
    requires M.Enabled(m, read) && (read.Look? || read.Parse? || read.Save?)
    ensures AllToRead(M.Apply(files, m, read).workers) < AllToRead(m.workers)
  {
    var r := M.StepOfWorker(files, m, read);
    ToReadAfter(m.workers, read.w, r);
    assert M.Apply(files, m, read).workers[read.w] == r;
  }

  /**
   Every step uses up work of the protocol or, leaving the protocol as it is, of a reader; so the discovery ends.
   */
  lemma StepsRunOut(files: M.Files, room: nat, s: State, step: Step)
    requires Enabled(files, room, s, step)
    ensures var s' := Apply(files, room, s, step);
      var d, d' := s.protocol, s'.protocol;
      || D.Ahead(d') < D.Ahead(d)
      || (D.Ahead(d') == D.Ahead(d) && D.AtHand(d') < D.AtHand(d))
      || (d' == d && AllToRead(s'.readers.workers) < AllToRead(s.readers.workers))
  {
    match step
    case Move(move) => D.StepsRunOut(room, s.protocol, move);
    case Read(read) =>
      ReadingRunsOut(files, s.readers, read);
  }
}
