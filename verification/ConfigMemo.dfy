/**
 The workers that turn tasks into scenarios (internal/treewalker/worker.go).
 */
module ConfigMemo {
  import opened Prelude
  import opened Explore

  // A task is read file by file; each configuration file changes the configuration accumulated so far.
  // Workers share a cache in which the accumulated configuration is kept under the name of the last file
  // alone.  This module shows, for every interleaving, that the cache makes no difference: each scenario
  // is what reading its task without a cache gives, even when files fail to parse halfway.

  // What configurations and requests are, and what files make of them, is arbitrary.
  type Config(!new, ==)
  type Request(!new, ==)

  datatype Kind = RequestFile | ConfigFile | OtherFile

  /**
   What the files are and say.  `kind` goes by the name's suffix; any other rule would do.  `config` reads a
   configuration file into a configuration; the flag tells whether it succeeded, and the configuration may have
   changed even if it did not.  `requests` is `None`
   for a file that cannot be opened or parsed.  `finish` names the scenario and merges the command
   line's variables in.
   */
  datatype Files = Files(
    initial: Config,
    kind: Path -> Kind,
    config: (Config, Path) -> (Config, bool),
    requests: Path -> Option<seq<Request>>,
    finish: (Config, Task) -> Config)

  // ----- without a cache -----

  function ConfigOf(files: Files, t: Task): Config {
    if t == [] then files.initial
    else
      var before, f := ConfigOf(files, t[..|t| - 1]), t[|t| - 1];
      if files.kind(f).ConfigFile? then files.config(before, f).0 else before
  }

  function RequestsOf(files: Files, t: Task): seq<Request> {
    if t == [] then []
    else
      var before, f := RequestsOf(files, t[..|t| - 1]), t[|t| - 1];
      if files.kind(f).RequestFile? && files.requests(f).Some? then before + files.requests(f).value else before
  }

  datatype Scenario = Scenario(config: Config, requests: seq<Request>)

  /** The scenarios of these tasks, a task without requests giving none. */
  function ScenariosOf(files: Files, ts: seq<Task>): seq<Scenario> {
    if ts == [] then []
    else
      var t := ts[|ts| - 1];
      ScenariosOf(files, ts[..|ts| - 1])
      + (if RequestsOf(files, t) == [] then []
         else [Scenario(files.finish(ConfigOf(files, t), t), RequestsOf(files, t))])
  }

  /** The requests of a list are those of its files one after another. */
  lemma {:induction false} RequestsInOrder(files: Files, a: Task, b: Task)
    ensures RequestsOf(files, a + b) == RequestsOf(files, a) + RequestsOf(files, b)
    decreases |b|
  {
    if b == [] {
      assert a + b == a;
    } else {
      assert (a + b)[..|a + b| - 1] == a + b[..|b| - 1];
      RequestsInOrder(files, a, b[..|b| - 1]);
    }
  }

  lemma RequestsOfOne(files: Files, f: Path)
    ensures RequestsOf(files, [f]) ==
      if files.kind(f).RequestFile? && files.requests(f).Some? then files.requests(f).value else []
  {
    assert [f][..0] == [];
  }

  /** The configuration files among the files of a list. */
  function ConfigFiles(files: Files, t: Task): Task {
    if t == [] then []
    else (if files.kind(t[0]).ConfigFile? then [t[0]] else []) + ConfigFiles(files, t[1..])
  }

  function ConfigFrom(files: Files, config: Config, t: Task): Config
    decreases |t|
  {
    if t == [] then config else ConfigFrom(files, files.config(config, t[0]).0, t[1..])
  }

  lemma {:induction false} ConfigOnward(files: Files, a: Task, b: Task)
    ensures ConfigOf(files, a + b) == ConfigFrom(files, ConfigOf(files, a), ConfigFiles(files, b))
    decreases |b|
  {
    if b == [] {
      assert a + b == a;
    } else {
      assert (a + [b[0]])[..|a|] == a && a + b == a + [b[0]] + b[1..];
      ConfigOnward(files, a + [b[0]], b[1..]);
      var rest := ConfigFiles(files, b[1..]);
      assert files.kind(b[0]).ConfigFile? ==> ([b[0]] + rest)[0] == b[0] && ([b[0]] + rest)[1..] == rest;
      assert [] + rest == rest;
    }
  }

  /** The configuration of a list is made by its configuration files alone, the first one first. */
  lemma ConfigsInOrder(files: Files, t: Task)
    ensures ConfigOf(files, t) == ConfigFrom(files, files.initial, ConfigFiles(files, t))
  {
    assert [] + t == t;
    ConfigOnward(files, [], t);
  }

  // ----- with the cache, one atomic access at a time -----

  datatype Stage = Look | Parse | Save

  datatype Worker = Idle | Busy(task: Task, at: nat, config: Config, requests: seq<Request>, stage: Stage)

  datatype State = State(
    queue: seq<Task>,
    workers: seq<Worker>,
    configs: map<Path, Config>,
    requests: map<Path, seq<Request>>,
    out: seq<Scenario>,
    done: seq<Task>)

  datatype Step = Take(w: nat) | Look(w: nat) | Parse(w: nat) | Save(w: nat) | Finish(w: nat)

  predicate Enabled(s: State, step: Step) {
    step.w < |s.workers| &&
    var w := s.workers[step.w];
    match step
    case Take(_) => w.Idle? && s.queue != []
    case Look(_) => w.Busy? && w.stage.Look? && w.at < |w.task|
    case Parse(_) => w.Busy? && w.stage.Parse? && w.at < |w.task|
    case Save(_) => w.Busy? && w.stage.Save? && w.at < |w.task|
    case Finish(_) => w.Busy? && w.stage.Look? && w.at == |w.task|
  }

  function Set(s: State, i: nat, w: Worker): State
    requires i < |s.workers|
  {
    s.(workers := s.workers[i := w])
  }

  /** A worker that is through with its current file. */
  function Onward(w: Worker): Worker
    requires w.Busy?
  {
    w.(at := w.at + 1, stage := Stage.Look)
  }

  /** A file found in its cache is dealt with; any other has to be read. */
  function Looked(files: Files, s: State, w: Worker): Worker
    requires w.Busy? && w.at < |w.task|
  {
    var f := w.task[w.at];
    if files.kind(f).RequestFile? then
      if f in s.requests then Onward(w).(requests := w.requests + s.requests[f]) else w.(stage := Stage.Parse)
    else if files.kind(f).ConfigFile? then
      if f in s.configs then Onward(w).(config := s.configs[f]) else w.(stage := Stage.Parse)
    else Onward(w)
  }

  /** Only what was parsed without an error is on its way into a cache. */
  function Parsed(files: Files, w: Worker): Worker
    requires w.Busy? && w.at < |w.task|
  {
    var f := w.task[w.at];
    if files.kind(f).RequestFile? then
      match files.requests(f)
      case None => Onward(w)
      case Some(rs) => w.(requests := w.requests + rs, stage := Stage.Save)
    else
      var (config, ok) := files.config(w.config, f);
      if ok then w.(config := config, stage := Stage.Save) else Onward(w).(config := config)
  }

  function Apply(files: Files, s: State, step: Step): State
    requires Enabled(s, step)
  {
    var w := s.workers[step.w];
    match step
    case Take(i) => Set(s, i, Busy(s.queue[0], 0, files.initial, [], Stage.Look)).(queue := s.queue[1..])
    case Look(i) => Set(s, i, Looked(files, s, w))
    case Parse(i) => Set(s, i, Parsed(files, w))
    case Save(i) =>
      var f := w.task[w.at];
      var s' := Set(s, i, Onward(w));
      if files.kind(f).RequestFile? then
        (match files.requests(f)
         case None => s'
         case Some(rs) => s'.(requests := s.requests[f := rs]))
      else s'.(configs := s.configs[f := w.config])
    case Finish(i) =>
      var s' := Set(s, i, Idle).(done := s.done + [w.task]);
      if w.requests == [] then s'
      else s'.(out := s.out + [Scenario(files.finish(w.config, w.task), w.requests)])
  }

  function After(files: Files, s: State, steps: seq<Step>): Option<State>
    decreases |steps|
  {
    if steps == [] then Some(s)
    else if Enabled(s, steps[0]) then After(files, Apply(files, s, steps[0]), steps[1..])
    else None
  }

  function Begin(tasks: seq<Task>, workers: nat): State {
    State(tasks, seq(workers, i => Idle), map[], map[], [], [])
  }

  // ----- the invariant -----

  /** `before(f)` is what comes before `f` wherever `f` occurs. */
  ghost predicate Determined(ts: seq<Task>, before: Path -> Task) {
    forall t, i :: t in ts && 0 <= i < |t| ==> t[..i] == before(t[i])
  }

  /** Entry by entry, the caches agree with reading the files. */
  ghost predicate CachesOk(files: Files, before: Path -> Task, s: State) {
    && (forall f :: f in s.configs ==> files.kind(f).ConfigFile? && s.configs[f] == ConfigOf(files, before(f) + [f]))
    && (forall f :: f in s.requests ==> files.requests(f) == Some(s.requests[f]))
  }

  /** A busy worker has what reading its task up to its place gives. */
  ghost predicate WorkerOk(files: Files, w: Worker) {
    w.Busy? ==>
      && w.at <= |w.task| && (!w.stage.Look? ==> w.at < |w.task|)
      && (w.stage.Parse? ==> files.kind(w.task[w.at]).RequestFile? || files.kind(w.task[w.at]).ConfigFile?)
      && (w.stage.Save? ==>
            if files.kind(w.task[w.at]).RequestFile? then files.requests(w.task[w.at]).Some?
            else files.kind(w.task[w.at]).ConfigFile?)
      && var upTo := if w.stage.Save? then w.at + 1 else w.at;
         w.config == ConfigOf(files, w.task[..upTo]) && w.requests == RequestsOf(files, w.task[..upTo])
  }

  function Holds(w: Worker, t: Task): nat {
    if w.Busy? && w.task == t then 1 else 0
  }

  /** How many workers are at task `t`. */
  function InHand(ws: seq<Worker>, t: Task): nat {
    if ws == [] then 0 else Holds(ws[0], t) + InHand(ws[1..], t)
  }

  /** Queued, in hand or done, a task is there as often as it was given out. */
  predicate Conserved(tasks: seq<Task>, s: State, t: Task) {
    multiset(s.queue)[t] + InHand(s.workers, t) + multiset(s.done)[t] == multiset(tasks)[t]
  }

  ghost predicate Ok(files: Files, before: Path -> Task, tasks: seq<Task>, s: State) {
    && CachesOk(files, before, s)
    && (forall i :: 0 <= i < |s.workers| ==> WorkerOk(files, s.workers[i]))
    && s.out == ScenariosOf(files, s.done)
    && forall t :: Conserved(tasks, s, t)
  }

  lemma {:induction false} InHandAfter(ws: seq<Worker>, i: nat, w: Worker, t: Task)
    requires i < |ws|
    ensures InHand(ws[i := w], t) + Holds(ws[i], t) == InHand(ws, t) + Holds(w, t)
    ensures InHand(ws, t) >= Holds(ws[i], t)
  {
    var ws' := ws[i := w];
    if i == 0 {
      assert ws'[1..] == ws[1..];
    } else {
      assert ws'[1..] == ws[1..][i - 1 := w];
      InHandAfter(ws[1..], i - 1, w, t);
    }
  }

  /** Reading one more file. */
  lemma OneMoreFile(files: Files, t: Task, i: nat)
    requires i < |t|
    ensures var before := ConfigOf(files, t[..i]);
      ConfigOf(files, t[..i + 1]) == if files.kind(t[i]).ConfigFile? then files.config(before, t[i]).0 else before
    ensures var before := RequestsOf(files, t[..i]);
      RequestsOf(files, t[..i + 1]) ==
        if files.kind(t[i]).RequestFile? && files.requests(t[i]).Some? then before + files.requests(t[i]).value
        else before
  {
    assert t[..i + 1][..i] == t[..i];
  }

  lemma LookKeepsWorker(files: Files, before: Path -> Task, s: State, w: Worker)
    requires CachesOk(files, before, s) && WorkerOk(files, w) && w.Busy? && w.stage.Look? && w.at < |w.task|
    requires w.task[..w.at] == before(w.task[w.at])
    ensures WorkerOk(files, Looked(files, s, w))
  {
    var f, w' := w.task[w.at], Looked(files, s, w);
    OneMoreFile(files, w.task, w.at);
    if files.kind(f).ConfigFile? && f in s.configs {
      assert w.task[..w.at + 1] == before(f) + [f];
      assert w'.config == ConfigOf(files, w.task[..w.at + 1]);
    } else if files.kind(f).RequestFile? && f in s.requests {
      assert files.requests(f) == Some(s.requests[f]);
    }
  }

  lemma ParseKeepsWorker(files: Files, w: Worker)
    requires WorkerOk(files, w) && w.Busy? && w.stage.Parse?
    ensures WorkerOk(files, Parsed(files, w))
  {
    OneMoreFile(files, w.task, w.at);
  }

  lemma BusyWorkerIsDetermined(files: Files, before: Path -> Task, tasks: seq<Task>, s: State, i: nat)
    requires Determined(tasks, before) && Ok(files, before, tasks, s) && i < |s.workers|
    ensures var w := s.workers[i];
      WorkerOk(files, w) && (w.Busy? && w.at < |w.task| ==> w.task[..w.at] == before(w.task[w.at]))
  {
    var w := s.workers[i];
    if w.Busy? && w.at < |w.task| {
      InHandAfter(s.workers, i, w, w.task);
      assert Conserved(tasks, s, w.task);
      assert w.task in multiset(tasks);
    }
  }

  lemma SaveKeepsCaches(files: Files, before: Path -> Task, s: State, i: nat)
    requires CachesOk(files, before, s) && Enabled(s, Step.Save(i)) && WorkerOk(files, s.workers[i])
    requires var w := s.workers[i]; w.task[..w.at] == before(w.task[w.at])
    ensures CachesOk(files, before, Apply(files, s, Step.Save(i)))
  {
    var w := s.workers[i];
    assert w.task[..w.at + 1] == before(w.task[w.at]) + [w.task[w.at]];
  }

  lemma StepKeepsCaches(files: Files, before: Path -> Task, tasks: seq<Task>, s: State, step: Step)
    requires Determined(tasks, before) && Ok(files, before, tasks, s) && Enabled(s, step)
    ensures CachesOk(files, before, Apply(files, s, step))
  {
    BusyWorkerIsDetermined(files, before, tasks, s, step.w);
    if step.Save? {
      SaveKeepsCaches(files, before, s, step.w);
    }
  }

  lemma StepKeepsWorker(files: Files, before: Path -> Task, tasks: seq<Task>, s: State, step: Step)
    requires Determined(tasks, before) && Ok(files, before, tasks, s) && Enabled(s, step)
    ensures WorkerOk(files, Apply(files, s, step).workers[step.w])
  {
    var w := s.workers[step.w];
    BusyWorkerIsDetermined(files, before, tasks, s, step.w);
    if step.Look? {
      LookKeepsWorker(files, before, s, w);
    } else if step.Parse? {
      ParseKeepsWorker(files, w);
    }
  }

  lemma StepKeepsOutput(files: Files, before: Path -> Task, tasks: seq<Task>, s: State, step: Step)
    requires Ok(files, before, tasks, s) && Enabled(s, step)
    ensures var s' := Apply(files, s, step); s'.out == ScenariosOf(files, s'.done)
  {
    if step.Finish? {
      var w := s.workers[step.w];
      assert WorkerOk(files, w) && w.task[..w.at] == w.task;
      assert (s.done + [w.task])[..|s.done|] == s.done;
    }
  }

  /** What a step does to its worker. */
  lemma StepOfWorker(files: Files, s: State, step: Step) returns (w': Worker)
    requires Enabled(s, step)
    ensures Apply(files, s, step).workers == s.workers[step.w := w']
    ensures match step
      case Take(_) => w'.Busy? && w'.task == s.queue[0]
      case Finish(_) => w'.Idle?
      case _ => w'.Busy? && w'.task == s.workers[step.w].task
    ensures !step.Take? ==> Apply(files, s, step).queue == s.queue
    ensures !step.Finish? ==> Apply(files, s, step).done == s.done
  {
    w' := Apply(files, s, step).workers[step.w];
  }

  lemma StepKeepsTasks(files: Files, tasks: seq<Task>, s: State, step: Step, t: Task)
    requires Conserved(tasks, s, t) && Enabled(s, step)
    ensures Conserved(tasks, Apply(files, s, step), t)
  {
    var s' := Apply(files, s, step);
    var w' := StepOfWorker(files, s, step);
    InHandAfter(s.workers, step.w, w', t);
    assert s'.workers == s.workers[step.w := w'];
    if step.Take? {
      CountOfHead(s.queue, t);
    } else if step.Finish? {
      CountOfLast(s.done, s.workers[step.w].task, t);
    }
  }

  lemma StepKeepsOk(files: Files, before: Path -> Task, tasks: seq<Task>, s: State, step: Step)
    requires Determined(tasks, before) && Ok(files, before, tasks, s) && Enabled(s, step)
    ensures Ok(files, before, tasks, Apply(files, s, step))
  {
    StepKeepsCaches(files, before, tasks, s, step);
    StepKeepsWorker(files, before, tasks, s, step);
    StepKeepsOutput(files, before, tasks, s, step);
    var s' := Apply(files, s, step);
    forall t
      ensures Conserved(tasks, s', t)
    {
      assert Conserved(tasks, s, t);
      StepKeepsTasks(files, tasks, s, step, t);
    }
    forall i | 0 <= i < |s'.workers|
      ensures WorkerOk(files, s'.workers[i])
    {
      assert i != step.w ==> s'.workers[i] == s.workers[i];
    }
  }

  lemma {:induction false} RunsKeepOk(files: Files, before: Path -> Task, tasks: seq<Task>, s: State, steps: seq<Step>)
    requires Determined(tasks, before) && Ok(files, before, tasks, s)
    ensures After(files, s, steps).Some? ==> Ok(files, before, tasks, After(files, s, steps).value)
    decreases |steps|
  {
    if steps != [] && Enabled(s, steps[0]) {
      StepKeepsOk(files, before, tasks, s, steps[0]);
      RunsKeepOk(files, before, tasks, Apply(files, s, steps[0]), steps[1..]);
    }
  }

  lemma {:induction false} NothingInHand(ws: seq<Worker>, t: Task)
    requires forall w :: w in ws ==> w.Idle?
    ensures InHand(ws, t) == 0
  {
    if ws != [] {
      assert ws[0] in ws;
      NothingInHand(ws[1..], t);
    }
  }

  lemma BeginIsOk(files: Files, before: Path -> Task, tasks: seq<Task>, workers: nat)
    ensures Ok(files, before, tasks, Begin(tasks, workers))
  {
    forall t
      ensures Conserved(tasks, Begin(tasks, workers), t)
    {
      NothingInHand(Begin(tasks, workers).workers, t);
    }
  }

  /** When no task is queued or in hand, each one was finished once. */
  lemma QuietIsDone(files: Files, before: Path -> Task, tasks: seq<Task>, s: State)
    requires Ok(files, before, tasks, s) && s.queue == [] && forall w :: w in s.workers ==> w.Idle?
    ensures s.out == ScenariosOf(files, s.done) && multiset(s.done) == multiset(tasks)
  {
    forall t
      ensures multiset(s.done)[t] == multiset(tasks)[t]
    {
      assert Conserved(tasks, s, t);
      NothingInHand(s.workers, t);
    }
  }

  /**
   In every interleaving of any number of workers, whatever has been emitted is what reading the
   finished tasks without a cache gives; and when nothing is left to do, every task was finished once.
   */
  lemma CacheMakesNoDifference(files: Files, before: Path -> Task, tasks: seq<Task>, workers: nat, steps: seq<Step>)
    requires Determined(tasks, before) && After(files, Begin(tasks, workers), steps).Some?
    ensures var s := After(files, Begin(tasks, workers), steps).value;
      && s.out == ScenariosOf(files, s.done)
      && multiset(s.done) <= multiset(tasks)
      && (s.queue == [] && (forall w :: w in s.workers ==> w.Idle?) ==> multiset(s.done) == multiset(tasks))
  {
    var s := After(files, Begin(tasks, workers), steps).value;
    BeginIsOk(files, before, tasks, workers);
    RunsKeepOk(files, before, tasks, Begin(tasks, workers), steps);
    forall t
      ensures multiset(s.done)[t] <= multiset(tasks)[t]
    {
      assert Conserved(tasks, s, t);
    }
    if s.queue == [] && forall w :: w in s.workers ==> w.Idle? {
      QuietIsDone(files, before, tasks, s);
    }
  }

  /** In the tasks of a tree without name clashes, what comes before a file is determined by the file. */
  function BeforeIn(dir: Directory): (before: Path -> Task) {
    f => Before([], dir, [], f)
  }

  lemma TreeIsDetermined(dir: Directory)
    requires NamesDiffer(dir)
    ensures Determined(Tasks([], dir, []), BeforeIn(dir))
  {
    var tasks := Tasks([], dir, []);
    forall t, i | t in tasks && 0 <= i < |t|
      ensures t[..i] == BeforeIn(dir)(t[i])
    {
      PrefixDetermined([], dir, [], t, i);
    }
  }

  /**
   The tasks of a directory tree without name clashes satisfy the condition, so its scenarios are cache-free folds.
   */
  lemma TreeScenariosNeedNoCache(files: Files, dir: Directory, workers: nat, steps: seq<Step>)
    requires NamesDiffer(dir)
    requires After(files, Begin(Tasks([], dir, []), workers), steps).Some?
    ensures var s := After(files, Begin(Tasks([], dir, []), workers), steps).value;
      && s.out == ScenariosOf(files, s.done)
      && multiset(s.done) <= multiset(Tasks([], dir, []))
      && (s.queue == [] && (forall w :: w in s.workers ==> w.Idle?) ==>
            multiset(s.done) == multiset(Tasks([], dir, [])))
  {
    TreeIsDetermined(dir);
    CacheMakesNoDifference(files, BeforeIn(dir), Tasks([], dir, []), workers, steps);
  }
}
