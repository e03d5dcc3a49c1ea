/**
 The caches shared by all workers: responses (internal/runner/cached-request-processor.go), Lua modules
 (cached-loader.go) and compiled scripts (cached-compiler.go).
 */
module Flights {
  import opened Prelude

  // All three look a key up, and on a miss join the one flight there is for the key.  A flight looks the
  // key up again, runs, may store what it got, and lands, handing its result to everybody on board.  The
  // three differ in which outcomes they store.  The protocol is a step system: any number of calls, any
  // interleaving; what a run yields is arbitrary.

  // Of all of these only equality matters.
  type Key(!new, ==)
  type Value(!new, ==)
  type Fault(!new, ==)
  type Call(!new, ==)

  datatype Cache = Responses | Modules | Scripts

  /** How a run ends: with a value, with an error before or after a response arrived, or by panicking. */
  datatype Outcome = Got(value: Value) | Failed(fault: Fault, answered: bool) | Panicked(fault: Fault)

  type Entry = Result<Value, Fault>

  /**
   Which outcomes are stored: the responses' cache keeps errors in reading one, the modules' cache keeps all errors.
   */
  predicate Kept(cache: Cache, o: Outcome) {
    match o
    case Got(_) => true
    case Failed(_, answered) => cache == Modules || (cache == Responses && answered)
    case Panicked(_) => false
  }

  function EntryOf(o: Outcome): Entry {
    if o.Got? then Success(o.value) else Failure(o.fault)
  }

  datatype Phase = Recheck | Run | Store(outcome: Outcome) | Land(result: Entry)

  datatype Flight = Flight(phase: Phase, aboard: set<Call>)

  datatype Status =
    | Asking(key: Key)             // about to look the key up
    | Missed(key: Key)             // not found, about to join or start a flight
    | Waiting(key: Key)
    | Served(key: Key, result: Entry)
    | Abandoned(key: Key)          // its context was done first

  /** `log` lists the outcomes of all runs so far, key by key. */
  datatype State = State(
    cache: map<Key, Entry>,
    flights: map<Key, Flight>,
    calls: map<Call, Status>,
    log: seq<(Key, Outcome)>)

  const INITIAL := State(map[], map[], map[], [])

  datatype Step =
    | Ask(call: Call, key: Key)
    | Lookup(call: Call)
    | Board(call: Call)
    | CheckAgain(key: Key)
    | Execute(key: Key, outcome: Outcome)
    | Keep(key: Key)
    | Deliver(key: Key)
    | Abandon(call: Call)

  predicate InPhase(s: State, k: Key, p: Phase) {
    k in s.flights && s.flights[k].phase == p
  }

  predicate Enabled(s: State, step: Step) {
    match step
    case Ask(c, k) => c !in s.calls
    case Lookup(c) => c in s.calls && s.calls[c].Asking?
    case Board(c) => c in s.calls && s.calls[c].Missed?
    case CheckAgain(k) => InPhase(s, k, Recheck)
    case Execute(k, _) => InPhase(s, k, Run)
    case Keep(k) => k in s.flights && s.flights[k].phase.Store?
    case Deliver(k) => k in s.flights && s.flights[k].phase.Land?
    case Abandon(c) => c in s.calls && s.calls[c].Waiting?
  }

  function WithPhase(s: State, k: Key, p: Phase): State
    requires k in s.flights
  {
    s.(flights := s.flights[k := s.flights[k].(phase := p)])
  }

  /** Everybody on board who is still there gets the result. */
  function Delivered(calls: map<Call, Status>, aboard: set<Call>, k: Key, r: Entry): map<Call, Status> {
    map c | c in calls :: if calls[c] == Waiting(k) && c in aboard then Served(k, r) else calls[c]
  }

  function Apply(cache: Cache, s: State, step: Step): State
    requires Enabled(s, step)
  {
    match step
    case Ask(c, k) => s.(calls := s.calls[c := Asking(k)])
    case Lookup(c) =>
      var k := s.calls[c].key;
      s.(calls := s.calls[c := if k in s.cache then Served(k, s.cache[k]) else Missed(k)])
    case Board(c) =>
      var k := s.calls[c].key;
      var flight := if k in s.flights then s.flights[k] else Flight(Recheck, {});
      s.(calls := s.calls[c := Waiting(k)], flights := s.flights[k := flight.(aboard := flight.aboard + {c})])
    case CheckAgain(k) => WithPhase(s, k, if k in s.cache then Land(s.cache[k]) else Run)
    case Execute(k, o) =>
      WithPhase(s, k, if Kept(cache, o) then Store(o) else Land(EntryOf(o))).(log := s.log + [(k, o)])
    case Keep(k) =>
      var entry := EntryOf(s.flights[k].phase.outcome);
      WithPhase(s, k, Land(entry)).(cache := s.cache[k := entry])
    case Deliver(k) =>
      s.(flights := s.flights - {k}, calls := Delivered(s.calls, s.flights[k].aboard, k, s.flights[k].phase.result))
    case Abandon(c) => s.(calls := s.calls[c := Abandoned(s.calls[c].key)])
  }

  /** The state after a sequence of steps; `None` if one of them cannot be taken. */
  function After(cache: Cache, s: State, steps: seq<Step>): Option<State>
    decreases |steps|
  {
    if steps == [] then Some(s)
    else if Enabled(s, steps[0]) then After(cache, Apply(cache, s, steps[0]), steps[1..])
    else None
  }

  // ----- the invariant -----

  function KeptRuns(cache: Cache, log: seq<(Key, Outcome)>, k: Key): seq<Outcome> {
    if log == [] then []
    else
      KeptRuns(cache, log[..|log| - 1], k)
      + (var (key, o) := log[|log| - 1]; if key == k && Kept(cache, o) then [o] else [])
  }

  /** At most one run was worth keeping, and its outcome is in the cache or on its way there. */
  predicate KeyOk(cache: Cache, s: State, k: Key) {
    var kept := KeptRuns(cache, s.log, k);
    var storing := k in s.flights && s.flights[k].phase.Store?;
    && |kept| == (if k in s.cache then 1 else 0) + (if storing then 1 else 0)
    && |kept| <= 1
    && (k in s.cache ==> s.cache[k] == EntryOf(kept[0]))
    && (storing ==> s.flights[k].phase.outcome == kept[0])
  }

  ghost predicate CacheOk(cache: Cache, s: State) {
    forall k :: KeyOk(cache, s, k)
  }

  predicate FlightOk(s: State, k: Key)
    requires k in s.flights
  {
    var Flight(phase, aboard) := s.flights[k];
    && (k in s.cache ==> phase.Recheck? || phase.Land?)
    && (phase.Land? && phase.result.Success? ==> k in s.cache && s.cache[k] == phase.result)
    && forall c :: c in aboard ==> c in s.calls && (s.calls[c] == Waiting(k) || s.calls[c] == Abandoned(k))
  }

  ghost predicate FlightsOk(s: State) {
    forall k :: k in s.flights ==> FlightOk(s, k)
  }

  /** Who waits is on board of a flight, and a value once served is the one in the cache. */
  predicate CallOk(s: State, c: Call)
    requires c in s.calls
  {
    match s.calls[c]
    case Waiting(k) => k in s.flights && c in s.flights[k].aboard
    case Served(k, r) => r.Success? ==> k in s.cache && s.cache[k] == r
    case _ => true
  }

  ghost predicate CallsOk(s: State) {
    forall c :: c in s.calls ==> CallOk(s, c)
  }

  ghost predicate Ok(cache: Cache, s: State) {
    CacheOk(cache, s) && FlightsOk(s) && CallsOk(s)
  }

  lemma ExecuteKeepsKeyOk(cache: Cache, s: State, key: Key, o: Outcome, k: Key)
    requires Ok(cache, s) && Enabled(s, Execute(key, o))
    ensures KeyOk(cache, Apply(cache, s, Execute(key, o)), k)
  {
    var log := s.log + [(key, o)];
    assert log[..|log| - 1] == s.log;
    assert KeyOk(cache, s, k) && FlightOk(s, key);
  }

  lemma StepKeepsKeyOk(cache: Cache, s: State, step: Step, k: Key)
    requires Ok(cache, s) && Enabled(s, step)
    ensures KeyOk(cache, Apply(cache, s, step), k)
  {
    assert KeyOk(cache, s, k);
    match step
    case Execute(key, o) => ExecuteKeepsKeyOk(cache, s, key, o, k);
    case CheckAgain(key) =>
    case Keep(key) =>
    case Deliver(key) =>
    case _ =>
  }

  lemma StepKeepsFlightOk(cache: Cache, s: State, step: Step, k: Key)
    requires Ok(cache, s) && Enabled(s, step) && k in Apply(cache, s, step).flights
    ensures FlightOk(Apply(cache, s, step), k)
  {
    if k in s.flights {
      assert FlightOk(s, k);
    }
    if step.Keep? {
      assert KeyOk(cache, s, step.key);
    }
  }

  lemma StepKeepsCallOk(cache: Cache, s: State, step: Step, c: Call)
    requires Ok(cache, s) && Enabled(s, step) && c in Apply(cache, s, step).calls
    ensures CallOk(Apply(cache, s, step), c)
  {
    if c in s.calls {
      assert CallOk(s, c);
    }
    if step.Keep? {
      assert KeyOk(cache, s, step.key);
    } else if step.Deliver? {
      assert FlightOk(s, step.key);
    }
  }

  lemma StepKeepsOk(cache: Cache, s: State, step: Step)
    requires Ok(cache, s) && Enabled(s, step)
    ensures Ok(cache, Apply(cache, s, step))
  {
    var s' := Apply(cache, s, step);
    forall k
      ensures KeyOk(cache, s', k)
      ensures k in s'.flights ==> FlightOk(s', k)
    {
      StepKeepsKeyOk(cache, s, step, k);
      if k in s'.flights {
        StepKeepsFlightOk(cache, s, step, k);
      }
    }
    forall c | c in s'.calls
      ensures CallOk(s', c)
    {
      StepKeepsCallOk(cache, s, step, c);
    }
  }

  lemma {:induction false} RunsKeepOk(cache: Cache, s: State, steps: seq<Step>)
    requires Ok(cache, s)
    ensures After(cache, s, steps).Some? ==> Ok(cache, After(cache, s, steps).value)
    decreases |steps|
  {
    if steps != [] && Enabled(s, steps[0]) {
      StepKeepsOk(cache, s, steps[0]);
      RunsKeepOk(cache, Apply(cache, s, steps[0]), steps[1..]);
    }
  }

  /** A state that some interleaving of the steps leads to. */
  ghost predicate Reachable(cache: Cache, s: State) {
    exists steps :: After(cache, INITIAL, steps) == Some(s)
  }

  lemma ReachableOk(cache: Cache, s: State)
    requires Reachable(cache, s)
    ensures Ok(cache, s)
  {
    var steps :| After(cache, INITIAL, steps) == Some(s);
    forall k
      ensures KeyOk(cache, INITIAL, k)
    {
    }
    RunsKeepOk(cache, INITIAL, steps);
  }

  // ----- what callers may rely on -----

  /** No step overwrites or drops an entry. */
  lemma EntriesAreFinal(cache: Cache, s: State, step: Step, k: Key)
    requires Reachable(cache, s) && Enabled(s, step) && k in s.cache
    ensures var s' := Apply(cache, s, step); k in s'.cache && s'.cache[k] == s.cache[k]
    ensures !(step.Keep? && step.key == k)
  {
    ReachableOk(cache, s);
    assert KeyOk(cache, s, k);
  }

  /** However many callers ask for a key at once, at most one run for it ever yields something worth keeping. */
  lemma AtMostOneKeptRun(cache: Cache, s: State, k: Key)
    requires Reachable(cache, s)
    ensures |KeptRuns(cache, s.log, k)| <= 1
    ensures k in s.cache ==> KeptRuns(cache, s.log, k) != [] && s.cache[k] == EntryOf(KeptRuns(cache, s.log, k)[0])
  {
    ReachableOk(cache, s);
    assert KeyOk(cache, s, k);
  }

  /** Everybody who is served a value for a key is served the same one. */
  lemma ServedValuesAgree(cache: Cache, s: State, c: Call, d: Call)
    requires Reachable(cache, s) && c in s.calls && d in s.calls
    requires s.calls[c].Served? && s.calls[d].Served? && s.calls[c].key == s.calls[d].key
    requires s.calls[c].result.Success? && s.calls[d].result.Success?
    ensures s.calls[c] == s.calls[d]
  {
    ReachableOk(cache, s);
    assert CallOk(s, c) && CallOk(s, d);
  }

  /** A run that fails without being kept leaves no entry behind, and the key can be run again. */
  lemma UnkeptRunLeavesNoEntry(cache: Cache, s: State, k: Key, o: Outcome)
    requires Reachable(cache, s) && Enabled(s, Execute(k, o)) && !Kept(cache, o)
    ensures var s' := Apply(cache, s, Execute(k, o));
      && k !in s'.cache && InPhase(s', k, Land(EntryOf(o)))
      && var s'' := Apply(cache, s', Deliver(k)); k !in s''.cache && k !in s''.flights
  {
    ReachableOk(cache, s);
    assert FlightOk(s, k);
  }

  function RunFrom(cache: Cache, k: Key, o: Outcome): seq<Step> {
    if Kept(cache, o) then [Execute(k, o), Keep(k), Deliver(k)] else [Execute(k, o), Deliver(k)]
  }

  /** What a flight still has to do, given how its run would end. */
  function Remaining(cache: Cache, s: State, k: Key, o: Outcome): seq<Step>
    requires k in s.flights
  {
    match s.flights[k].phase
    case Recheck => if k in s.cache then [CheckAgain(k), Deliver(k)] else [CheckAgain(k)] + RunFrom(cache, k, o)
    case Run => RunFrom(cache, k, o)
    case Store(_) => [Keep(k), Deliver(k)]
    case Land(_) => [Deliver(k)]
  }

  lemma OneFlightStep(cache: Cache, s: State, k: Key, o: Outcome)
    requires k in s.flights
    ensures var steps := Remaining(cache, s, k, o);
      && 1 <= |steps| <= 4 && Enabled(s, steps[0])
      && var s' := Apply(cache, s, steps[0]);
         if s.flights[k].phase.Land? then
           steps[1..] == [] && s'.calls == Delivered(s.calls, s.flights[k].aboard, k, s.flights[k].phase.result)
         else
           && k in s'.flights && Remaining(cache, s', k, o) == steps[1..] && s'.calls == s.calls
           && s'.flights[k].aboard == s.flights[k].aboard
  {
  }

  /** Each step leaves the flight with one step less to do. */
  lemma {:induction false} FlightLands(cache: Cache, s: State, k: Key, o: Outcome)
    requires k in s.flights
    ensures |Remaining(cache, s, k, o)| <= 4
    ensures var r := After(cache, s, Remaining(cache, s, k, o));
      r.Some? && exists result :: r.value.calls == Delivered(s.calls, s.flights[k].aboard, k, result)
    decreases |Remaining(cache, s, k, o)|
  {
    var steps := Remaining(cache, s, k, o);
    OneFlightStep(cache, s, k, o);
    if !s.flights[k].phase.Land? {
      FlightLands(cache, Apply(cache, s, steps[0]), k, o);
    }
  }

  /** No caller is lost: a flight's own steps, at most four, serve everybody who still waits for it. */
  lemma EveryWaiterIsServed(cache: Cache, s: State, c: Call, o: Outcome)
    requires Reachable(cache, s) && c in s.calls && s.calls[c].Waiting?
    ensures var k := s.calls[c].key;
      && k in s.flights
      && var rest := Remaining(cache, s, k, o);
         && |rest| <= 4
         && After(cache, s, rest).Some?
         && var s' := After(cache, s, rest).value;
            forall d :: d in s.calls && s.calls[d] == Waiting(k) ==>
              d in s'.calls && s'.calls[d].Served? && s'.calls[d].key == k
  {
    ReachableOk(cache, s);
    var k := s.calls[c].key;
    assert CallOk(s, c);
    forall d | d in s.calls && s.calls[d] == Waiting(k)
      ensures d in s.flights[k].aboard
    {
      assert CallOk(s, d);
    }
    FlightLands(cache, s, k, o);
  }

  // ----- giving up does not disturb the others -----

  /** A run of the protocol as it would have gone had call `c` not given up. */
  function WithoutAbandon(steps: seq<Step>, c: Call): seq<Step> {
    if steps == [] then []
    else (if steps[0] == Abandon(c) then [] else [steps[0]]) + WithoutAbandon(steps[1..], c)
  }

  /** The same state, but for what became of call `c`; and there `c` waits or was served, or is unchanged. */
  ghost predicate SameButFor(s: State, t: State, c: Call) {
    && s.cache == t.cache && s.flights == t.flights && s.log == t.log && s.calls.Keys == t.calls.Keys
    && (forall d :: d in s.calls && d != c ==> s.calls[d] == t.calls[d])
    && (c in s.calls && s.calls[c] != t.calls[c] ==>
          s.calls[c].Abandoned? && t.calls[c].key == s.calls[c].key && (t.calls[c].Waiting? || t.calls[c].Served?))
  }

  lemma OneStepPrivate(cache: Cache, s: State, t: State, step: Step, c: Call)
    requires SameButFor(s, t, c) && Enabled(s, step) && step != Abandon(c)
    ensures Enabled(t, step) && SameButFor(Apply(cache, s, step), Apply(cache, t, step), c)
  {
  }

  lemma {:induction false} AbandoningIsPrivate(cache: Cache, s: State, t: State, steps: seq<Step>, c: Call)
    requires SameButFor(s, t, c) && After(cache, s, steps).Some?
    ensures After(cache, t, WithoutAbandon(steps, c)).Some?
    ensures SameButFor(After(cache, s, steps).value, After(cache, t, WithoutAbandon(steps, c)).value, c)
    decreases |steps|
  {
    if steps != [] {
      var step := steps[0];
      var s' := Apply(cache, s, step);
      if step == Abandon(c) {
        AbandoningIsPrivate(cache, s', t, steps[1..], c);
        assert WithoutAbandon(steps, c) == WithoutAbandon(steps[1..], c);
      } else {
        OneStepPrivate(cache, s, t, step, c);
        AbandoningIsPrivate(cache, s', Apply(cache, t, step), steps[1..], c);
        assert WithoutAbandon(steps, c)[1..] == WithoutAbandon(steps[1..], c);
      }
    }
  }

  /** Every run goes the same for everybody else if one call had not given up. */
  lemma OthersDoNotNotice(cache: Cache, steps: seq<Step>, c: Call)
    requires After(cache, INITIAL, steps).Some?
    ensures After(cache, INITIAL, WithoutAbandon(steps, c)).Some?
    ensures SameButFor(After(cache, INITIAL, steps).value, After(cache, INITIAL, WithoutAbandon(steps, c)).value, c)
  {
    AbandoningIsPrivate(cache, INITIAL, INITIAL, steps, c);
  }

  // ----- how the three caches differ -----

  lemma {:induction false} KeptRunsAreLogged(cache: Cache, log: seq<(Key, Outcome)>, k: Key)
    ensures forall o :: o in KeptRuns(cache, log, k) ==> (k, o) in log && Kept(cache, o)
    decreases |log|
  {
    if log != [] {
      var before, last := log[..|log| - 1], log[|log| - 1];
      KeptRunsAreLogged(cache, before, k);
      forall o | o in KeptRuns(cache, log, k)
        ensures (k, o) in log && Kept(cache, o)
      {
        if o !in KeptRuns(cache, before, k) {
          assert o in (if last.0 == k && Kept(cache, last.1) then [last.1] else []);
          assert last == (k, o) && last in log;
        }
      }
    }
  }

  /**
   The kept runs of a key stand in the order of the log, and one run is among them exactly if it is the key's and
   worth keeping.
   */
  lemma {:induction false} KeptRunsInOrder(cache: Cache, a: seq<(Key, Outcome)>, b: seq<(Key, Outcome)>, k: Key)
    ensures KeptRuns(cache, a + b, k) == KeptRuns(cache, a, k) + KeptRuns(cache, b, k)
    ensures |b| == 1 ==> KeptRuns(cache, b, k) == if b[0].0 == k && Kept(cache, b[0].1) then [b[0].1] else []
    decreases |b|
  {
    if b == [] {
      assert a + b == a;
    } else {
      var n := |b| - 1;
      assert (a + b)[..|a + b| - 1] == a + b[..n] && (a + b)[|a + b| - 1] == b[n];
      KeptRunsInOrder(cache, a, b[..n], k);
    }
  }

  /**
   Callers of the modules' cache are served from it after any failure but a panic; the scripts' cache holds no error.
   */
  lemma WhatEachCacheHolds(cache: Cache, s: State, k: Key)
    requires Reachable(cache, s) && k in s.cache
    ensures cache == Scripts ==> s.cache[k].Success?
    ensures s.cache[k].Failure? ==> exists o :: (k, o) in s.log && o.Failed? && (cache == Modules || o.answered)
  {
    ReachableOk(cache, s);
    assert KeyOk(cache, s, k);
    KeptRunsAreLogged(cache, s.log, k);
    var o := KeptRuns(cache, s.log, k)[0];
    assert (k, o) in s.log && Kept(cache, o);
  }

  lemma FirstStep(cache: Cache, s: State, step: Step, steps: seq<Step>)
    requires Enabled(s, step)
    ensures After(cache, s, [step] + steps) == After(cache, Apply(cache, s, step), steps)
  {
    assert ([step] + steps)[1..] == steps;
  }

  /** A run worth keeping is stored by its flight's next step, an error no less than a value. */
  lemma KeptRunIsStored(cache: Cache, s: State, k: Key, o: Outcome)
    requires Reachable(cache, s) && Enabled(s, Execute(k, o)) && Kept(cache, o)
    ensures After(cache, s, [Execute(k, o), Keep(k)]).Some?
    ensures var s' := After(cache, s, [Execute(k, o), Keep(k)]).value; k in s'.cache && s'.cache[k] == EntryOf(o)
  {
    FirstStep(cache, s, Execute(k, o), [Keep(k)]);
    FirstStep(cache, Apply(cache, s, Execute(k, o)), Keep(k), []);
    assert [Execute(k, o)] + [Keep(k)] == [Execute(k, o), Keep(k)];
  }

  /** So whoever asks for a module that failed to load is told so from the cache, without another run. */
  lemma FailedLoadIsServed(s: State, k: Key, o: Outcome, c: Call)
    requires Reachable(Modules, s) && Enabled(s, Execute(k, o)) && o.Failed? && c !in s.calls
    ensures var r := After(Modules, s, [Execute(k, o), Keep(k), Ask(c, k), Lookup(c)]);
      && r.Some? && c in r.value.calls && r.value.calls[c] == Served(k, Failure(o.fault))
      && r.value.log == s.log + [(k, o)]
  {
    var s1 := Apply(Modules, s, Execute(k, o));
    var s2 := Apply(Modules, s1, Keep(k));
    var s3 := Apply(Modules, s2, Ask(c, k));
    FirstStep(Modules, s, Execute(k, o), [Keep(k), Ask(c, k), Lookup(c)]);
    FirstStep(Modules, s1, Keep(k), [Ask(c, k), Lookup(c)]);
    FirstStep(Modules, s2, Ask(c, k), [Lookup(c)]);
    FirstStep(Modules, s3, Lookup(c), []);
    assert [Execute(k, o)] + [Keep(k), Ask(c, k), Lookup(c)] == [Execute(k, o), Keep(k), Ask(c, k), Lookup(c)];
    assert [Keep(k)] + [Ask(c, k), Lookup(c)] == [Keep(k), Ask(c, k), Lookup(c)];
    assert [Ask(c, k)] + [Lookup(c)] == [Ask(c, k), Lookup(c)];
  }
}
