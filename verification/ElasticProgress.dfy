/**
 The pool comes to its return.  With limits that never decrease and a source of boundedly many items only
 boundedly many steps change anything, and until the return there is always one that does.
 */
module ElasticProgress {
  import opened Prelude
  import opened ElasticPool
  import opened ElasticRuns

  // ---- what is left to do --------------------------------------------------------------------

  /** How far a worker is from leaving, short of another item. */
  function Distance(phase: Phase): nat {
    match phase
    case Leaving => 1
    case Erroring(_) => 2
    case Loading => 3
    case Taking => 4
    case Gate => 5
    case Running(_, _) => 6
  }

  /** The distances of the workers below `n`. */
  function Distances(workers: Workers, n: nat): nat {
    if n == 0 then 0
    else Distances(workers, n - 1) + if n - 1 in workers then Distance(workers[n - 1]) else 0
  }

  /** Workers the manager may still start. */
  function Vacancies(p: Pool): int {
    if p.exhausted || p.firstError.Some? then 0 else MAX_RUNTIME_THREADS - |p.workers|
  }

  /** What is left to do when the source gives `items` items in all. */
  function Work(p: Pool, items: nat): int {
    5 * (items - |p.loaded|) + 3 * |p.buffer| + Distances(p.workers, p.nextWorker) + 6 * Vacancies(p)
    + (MAX_RUNTIME_THREADS - p.desired) + (if p.stop then 0 else 1) + (if p.returned then 0 else 1)
  }

  // ---- distances -----------------------------------------------------------------------------

  lemma {:induction false} DistancesMove(workers: Workers, n: nat, id: nat, phase: Phase)
    requires id in workers
    ensures Distances(workers[id := phase], n)
         == Distances(workers, n) + if id < n then Distance(phase) - Distance(workers[id]) else 0
  {
    if n > 0 { DistancesMove(workers, n - 1, id, phase); }
  }

  lemma {:induction false} DistancesWithout(workers: Workers, n: nat, id: nat)
    requires id in workers
    ensures Distances(workers - {id}, n) == Distances(workers, n) - if id < n then Distance(workers[id]) else 0
  {
    if n > 0 { DistancesWithout(workers, n - 1, id); }
  }

  lemma {:induction false} DistancesSame(workers: Workers, n: nat, id: nat, phase: Phase)
    requires n <= id
    ensures Distances(workers[id := phase], n) == Distances(workers, n)
  {
    if n > 0 { DistancesSame(workers, n - 1, id, phase); }
  }

  lemma {:induction false} DistancesSpawn(p: Pool, count: nat)
    ensures var q := Spawn(p, count);
      && q.nextWorker == p.nextWorker + count
      && Distances(q.workers, q.nextWorker) == Distances(p.workers, p.nextWorker) + 5 * count
    decreases count
  {
    if count > 0 {
      DistancesSame(p.workers, p.nextWorker, p.nextWorker, Gate);
      DistancesSpawn(p.(workers := p.workers[p.nextWorker := Gate], nextWorker := p.nextWorker + 1), count - 1);
    }
  }

  // ---- every step that changes something leaves less to do -----------------------------------

  /** The limit of a manager turn is no lower than before. */
  predicate Holds(p: Pool, s: Step) {
    s.ManagerTurn? ==> s.limit >= p.desired
  }

  /** A worker that changes its phase changes the distances by its own. */
  lemma MoveWorks(p: Pool, id: nat, phase: Phase)
    requires id in p.workers && FlagsOk(p)
    ensures var workers := p.workers[id := phase];
      && |workers| == |p.workers|
      && Distances(workers, p.nextWorker)
         == Distances(p.workers, p.nextWorker) + Distance(phase) - Distance(p.workers[id])
  {
    DistancesMove(p.workers, p.nextWorker, id, phase);
    assert p.workers[id := phase].Keys == p.workers.Keys;
    assert |p.workers[id := phase]| == |p.workers[id := phase].Keys| && |p.workers| == |p.workers.Keys|;
  }

  /** Nobody joins and the limit stays. */
  predicate NoneJoins(p: Pool, q: Pool) {
    |q.workers| <= |p.workers| && q.desired == p.desired
  }

  /** The limits are within bounds. */
  ghost predicate Bounded(p: Pool) {
    |p.workers| <= p.desired <= MAX_RUNTIME_THREADS
  }

  lemma GateWorks(p: Pool, id: nat, phase: Phase, items: nat)
    requires FlagsOk(p) && id in p.workers && p.workers[id] == Gate && (phase == Leaving || phase == Taking)
    ensures Work(Move(p, id, phase), items) < Work(p, items) && NoneJoins(p, Move(p, id, phase))
  {
    hide Distances;
    MoveWorks(p, id, phase);
  }

  lemma TakeWorks(p: Pool, id: nat, items: nat)
    requires FlagsOk(p) && id in p.workers && p.workers[id] == Taking
    ensures Take(p, id) == p || Work(Take(p, id), items) < Work(p, items)
    ensures NoneJoins(p, Take(p, id))
  {
    hide Distances;
    if p.stop || (p.buffer == [] && p.exhausted) {
      MoveWorks(p, id, Leaving);
    } else if p.buffer != [] {
      MoveWorks(p, id, Running(p.nextItem, p.buffer[0]));
    } else if !p.loading {
      MoveWorks(p, id, Loading);
    }
  }

  lemma LoadWorks(p: Pool, id: nat, load: Load, items: nat)
    requires FlagsOk(p) && Bounded(p) && id in p.workers && p.workers[id] == Loading
    ensures Work(EndLoad(p, id, load), items) < Work(p, items) && NoneJoins(p, EndLoad(p, id, load))
  {
    hide Distances;
    match load
    case LoadError(error) => MoveWorks(p, id, Erroring(error));
    case Batch(batch) => MoveWorks(p, id, if batch != [] then Taking else Leaving);
  }

  lemma RunWorks(p: Pool, id: nat, outcome: Outcome, items: nat)
    requires FlagsOk(p) && id in p.workers && p.workers[id].Running?
    ensures Work(EndRun(p, id, outcome), items) < Work(p, items) && NoneJoins(p, EndRun(p, id, outcome))
  {
    hide Distances;
    match outcome
    case Ok(value) => MoveWorks(p, id, Gate);
    case Err(error) => MoveWorks(p, id, Erroring(error));
  }

  lemma ReportWorks(p: Pool, id: nat, error: int, items: nat)
    requires FlagsOk(p) && Bounded(p) && id in p.workers && p.workers[id].Erroring?
    ensures Work(Fail(p, id, error), items) < Work(p, items) && NoneJoins(p, Fail(p, id, error))
  {
    hide Distances;
    MoveWorks(p, id, Leaving);
  }

  lemma LeaveWorks(p: Pool, id: nat, items: nat)
    requires FlagsOk(p) && Staffed(p) && id in p.workers && p.workers[id] == Leaving
    ensures Work(p.(workers := p.workers - {id}), items) < Work(p, items)
      && NoneJoins(p, p.(workers := p.workers - {id}))
  {
    hide Distances;
    DistancesWithout(p.workers, p.nextWorker, id);
  }

  lemma TurnWorks(source: Source, p: Pool, limit: nat, items: nat)
    requires FlagsOk(p) && Bounded(p) && !p.returned && p.desired <= limit <= MAX_RUNTIME_THREADS
    ensures var q := Turn(source, p, limit);
      (q == p || Work(q, items) < Work(p, items)) && Bounded(q) && q.desired >= p.desired
  {
    hide Distances;
    if p.firstError.None? {
      var r := p.(desired := limit);
      var count := Max(0, Min(Needed(source, r), Max(1, |r.workers|)));
      SpawnOk(r, count);
      DistancesSpawn(r, count);
    }
  }

  /** A step either changes nothing or leaves less to do, as long as the limit does not fall. */
  lemma StepWorks(source: Source, run: Item -> Outcome, p: Pool, s: Step, items: nat)
    requires FlagsOk(p) && Staffed(p) && Bounded(p) && Enabled(source, p, s) && Holds(p, s)
    ensures var q := Apply(source, run, p, s);
      (q == p || Work(q, items) < Work(p, items)) && Bounded(q) && q.desired >= p.desired
  {
    hide Distances, Work, Take, EndLoad, EndRun, Fail, Turn;
    match s
    case CheckGate(id) => GateWorks(p, id, if p.stop || |p.workers| > p.desired then Leaving else Taking, items);
    case TakeItem(id) => TakeWorks(p, id, items);
    case FinishLoad(id, load) => LoadWorks(p, id, load, items);
    case FinishRun(id) => RunWorks(p, id, run(p.workers[id].item), items);
    case ReportError(id) => ReportWorks(p, id, p.workers[id].error, items);
    case Leave(id) => LeaveWorks(p, id, items);
    case ManagerTurn(limit) => TurnWorks(source, p, limit, items);
  }

  // ---- whole runs ----------------------------------------------------------------------------

  /** The steps of a run that change something. */
  ghost function Productive(source: Source, run: Item -> Outcome, p: Pool, steps: seq<Step>): nat
    requires Possible(source, run, p, steps)
    decreases |steps|
  {
    if steps == [] then 0
    else
      var q := Apply(source, run, p, steps[0]);
      (if q == p then 0 else 1) + Productive(source, run, q, steps[1..])
  }

  /** Loading never gives anything back. */
  lemma {:induction false} LoadedGrows(source: Source, run: Item -> Outcome, p: Pool, steps: seq<Step>)
    requires Possible(source, run, p, steps)
    ensures |p.loaded| <= |After(source, run, p, steps).loaded|
    decreases |steps|
  {
    if steps != [] {
      var q := Apply(source, run, p, steps[0]);
      StepLoads(source, run, p, steps[0]);
      hide Apply, Enabled;
      LoadedGrows(source, run, q, steps[1..]);
    }
  }

  lemma StepLoads(source: Source, run: Item -> Outcome, p: Pool, s: Step)
    requires Enabled(source, p, s)
    ensures |p.loaded| <= |Apply(source, run, p, s).loaded|
  {
    hide Take, EndLoad, EndRun, Fail, Turn;
    match s
    case TakeItem(id) => TakeLoads(p, id);
    case FinishLoad(id, load) => BatchLoads(p, id, load);
    case FinishRun(id) => RunLoads(p, id, run(p.workers[id].item));
    case ReportError(id) => FailLoads(p, id, p.workers[id].error);
    case ManagerTurn(limit) => TurnLoads(source, p, limit);
    case _ =>
  }

  lemma TakeLoads(p: Pool, id: nat)
    requires id in p.workers
    ensures Take(p, id).loaded == p.loaded
  {
  }

  lemma BatchLoads(p: Pool, id: nat, load: Load)
    ensures p.loaded <= EndLoad(p, id, load).loaded
  {
  }

  lemma RunLoads(p: Pool, id: nat, outcome: Outcome)
    requires id in p.workers && p.workers[id].Running?
    ensures EndRun(p, id, outcome).loaded == p.loaded
  {
  }

  lemma FailLoads(p: Pool, id: nat, error: int)
    ensures Fail(p, id, error).loaded == p.loaded
  {
  }

  lemma TurnLoads(source: Source, p: Pool, limit: nat)
    ensures Turn(source, p, limit).loaded == p.loaded
  {
    SpawnFrame(p.(desired := limit), Max(0, Min(Needed(source, p.(desired := limit)), Max(1, |p.workers|))));
  }

  lemma {:induction false} SpawnFrame(p: Pool, count: nat)
    ensures var q := Spawn(p, count); q == p.(workers := q.workers, nextWorker := q.nextWorker)
    decreases count
  {
    if count > 0 {
      SpawnFrame(p.(workers := p.workers[p.nextWorker := Gate], nextWorker := p.nextWorker + 1), count - 1);
    }
  }

  lemma {:induction false} ProductiveBound(source: Source, run: Item -> Outcome, p: Pool, steps: seq<Step>, items: nat)
    requires Inv(source, run, p) && Staffed(p) && Bounded(p)
    requires Possible(source, run, p, steps) && Steady(source, run, p, steps)
    requires |After(source, run, p, steps).loaded| <= items
    ensures Productive(source, run, p, steps) <= Work(p, items)
    decreases |steps|
  {
    LoadedGrows(source, run, p, steps);
    if steps != [] {
      var q := Apply(source, run, p, steps[0]);
      KeepsGoing(source, run, p, steps[0], items);
      hide Inv, Apply, Enabled, Staffed, Bounded, Work;
      ProductiveBound(source, run, q, steps[1..], items);
    }
  }

  lemma KeepsGoing(source: Source, run: Item -> Outcome, p: Pool, s: Step, items: nat)
    requires Inv(source, run, p) && Staffed(p) && Bounded(p) && Enabled(source, p, s) && Holds(p, s)
    ensures var q := Apply(source, run, p, s);
      Inv(source, run, q) && Staffed(q) && Bounded(q) && (q == p || Work(q, items) < Work(p, items))
  {
    hide Apply, Work;
    StepOk(source, run, p, s);
    StaffedStep(source, run, p, s);
    StepWorks(source, run, p, s, items);
  }

  /** With limits that never decrease, a run whose source gives at most `items` items has boundedly many steps
      that change anything. */
  lemma PoolEnds(source: Source, run: Item -> Outcome, desired: nat, steps: seq<Step>, items: nat)
    requires 1 <= desired <= MAX_RUNTIME_THREADS && (source.Listed? ==> source.items != [])
    requires Possible(source, run, Start(source, desired), steps) && Steady(source, run, Start(source, desired), steps)
    requires |After(source, run, Start(source, desired), steps).loaded| <= items
    ensures Productive(source, run, Start(source, desired), steps) <= 5 * items + 7 * MAX_RUNTIME_THREADS + 2
  {
    StartOk(source, run, desired);
    StartStaffed(source, desired);
    StartWork(source, desired, items);
    hide Start, Inv, Staffed, Bounded, Work;
    ProductiveBound(source, run, Start(source, desired), steps, items);
  }

  lemma StartWork(source: Source, desired: nat, items: nat)
    requires 1 <= desired <= MAX_RUNTIME_THREADS
    ensures Work(Start(source, desired), items) <= 5 * items + 7 * MAX_RUNTIME_THREADS + 2
  {
    var empty := Pool(desired, false, false, [], false, 0, 0, map[], map[], None, false, [], false);
    var known := KnownCount(source);
    var burst := Min(desired, INITIAL_WORKER_BURST);
    var count := if known.Some? then Min(burst, known.value) else burst;
    SpawnOk(empty, count);
    DistancesSpawn(empty, count);
  }

  lemma StartStaffed(source: Source, desired: nat)
    requires 1 <= desired <= MAX_RUNTIME_THREADS && (source.Listed? ==> source.items != [])
    ensures Staffed(Start(source, desired)) && Bounded(Start(source, desired))
    ensures Start(source, desired).desired == desired
  {
    var empty := Pool(desired, false, false, [], false, 0, 0, map[], map[], None, false, [], false);
    var known := KnownCount(source);
    var burst := Min(desired, INITIAL_WORKER_BURST);
    SpawnOk(empty, if known.Some? then Min(burst, known.value) else burst);
  }

  // ---- something can always be done ----------------------------------------------------------

  /** Until the pool has returned, some step changes something without lowering the limit. */
  lemma AlwaysProductive(source: Source, run: Item -> Outcome, p: Pool) returns (s: Step)
    requires Inv(source, run, p) && Staffed(p) && Bounded(p) && !p.returned && p.desired >= 1
    ensures Enabled(source, p, s) && Holds(p, s) && Apply(source, run, p, s) != p
  {
    if p.workers == map[] {
      s := ManagerTurn(p.desired);
      assert Turn(source, p, p.desired).returned;
    } else {
      var id := BusyWorker(source, run, p);
      s := WorkerStep(source, run, p, id);
    }
  }

  /** A worker that can go on: any that is not waiting for the loader, and else the loader. */
  lemma BusyWorker(source: Source, run: Item -> Outcome, p: Pool) returns (id: nat)
    requires Inv(source, run, p) && p.workers != map[]
    ensures id in p.workers && (p.workers[id] == Taking ==> Take(p, id) != p)
  {
    id :| id in p.workers;
    if p.workers[id] == Taking && !p.stop && p.buffer == [] && !p.exhausted && p.loading {
      var loader :| Loads(p.workers, loader);
      id := loader;
    } else if p.workers[id] == Taking {
      TakeMoves(p, id);
    }
  }

  lemma TakeMoves(p: Pool, id: nat)
    requires id in p.workers && p.workers[id] == Taking && (p.stop || p.buffer != [] || p.exhausted || !p.loading)
    ensures Take(p, id) != p
  {
    assert Take(p, id).workers[id] != Taking;
  }

  lemma RunMoves(p: Pool, id: nat, outcome: Outcome)
    requires id in p.workers && p.workers[id].Running?
    ensures EndRun(p, id, outcome) != p
  {
    assert !EndRun(p, id, outcome).workers[id].Running?;
  }

  lemma FailMoves(p: Pool, id: nat, error: int)
    requires id in p.workers && p.workers[id].Erroring?
    ensures Fail(p, id, error) != p
  {
    assert !Fail(p, id, error).workers[id].Erroring?;
  }

  /** Some batch the source may give next: a list's next item, and otherwise nothing. */
  function NextBatch(source: Source, p: Pool): seq<Item> {
    if source.Listed? && |p.loaded| < |source.items| then [source.items[|p.loaded|]] else []
  }

  lemma WorkerStep(source: Source, run: Item -> Outcome, p: Pool, id: nat) returns (s: Step)
    requires id in p.workers && (p.workers[id] == Taking ==> Take(p, id) != p)
    ensures Enabled(source, p, s) && !s.ManagerTurn? && Apply(source, run, p, s) != p
  {
    hide Take, Fail, EndRun, Turn;
    match p.workers[id]
    case Gate =>
      s := CheckGate(id);
      assert Apply(source, run, p, s).workers[id] != Gate;
    case Taking =>
      s := TakeItem(id);
    case Loading =>
      s := FinishLoad(id, Batch(NextBatch(source, p)));
      assert Apply(source, run, p, s).workers[id] != Loading;
    case Running(_, _) =>
      s := FinishRun(id);
      RunMoves(p, id, run(p.workers[id].item));
    case Erroring(error) =>
      s := ReportError(id);
      FailMoves(p, id, error);
    case Leaving =>
      s := Leave(id);
      assert id !in Apply(source, run, p, s).workers;
  }

  /** So a steady run in which nothing more can change has returned. */
  lemma RestMeansReturned(source: Source, run: Item -> Outcome, desired: nat, steps: seq<Step>)
    requires 1 <= desired <= MAX_RUNTIME_THREADS && (source.Listed? ==> source.items != [])
    requires Possible(source, run, Start(source, desired), steps) && Steady(source, run, Start(source, desired), steps)
    requires var p := After(source, run, Start(source, desired), steps);
      forall s | Enabled(source, p, s) && Holds(p, s) :: Apply(source, run, p, s) == p
    ensures After(source, run, Start(source, desired), steps).returned
  {
    StartOk(source, run, desired);
    StartStaffed(source, desired);
    var start := Start(source, desired);
    hide Start;
    RunOk(source, run, start, steps);
    StaffedRun(source, run, start, steps);
    BoundedRun(source, run, start, steps);
    var p := After(source, run, start, steps);
    hide After;
    if !p.returned { var s := AlwaysProductive(source, run, p); }
  }

  /** Nor are the workers held up when the manager is gone, as after a limit that cannot be read: when no
      worker can go on and none has failed, they have run every item of the source. */
  lemma OrphansDrain(source: Source, run: Item -> Outcome, desired: nat, steps: seq<Step>)
    requires 1 <= desired <= MAX_RUNTIME_THREADS && (source.Listed? ==> source.items != [])
    requires Possible(source, run, Start(source, desired), steps) && Steady(source, run, Start(source, desired), steps)
    requires var p := After(source, run, Start(source, desired), steps);
      p.firstError.None? && forall s | Enabled(source, p, s) && !s.ManagerTurn? :: Apply(source, run, p, s) == p
    ensures var p := After(source, run, Start(source, desired), steps);
      && p.workers == map[] && p.ended && p.nextItem == |p.loaded|
      && (forall j :: j in p.results <==> 0 <= j < |p.loaded|)
      && SequentialResults(run, p.loaded, Ordered(p.results, |p.loaded|))
      && (source.Listed? ==> p.loaded == source.items)
  {
    StartOk(source, run, desired);
    StartStaffed(source, desired);
    var start := Start(source, desired);
    hide Start;
    RunOk(source, run, start, steps);
    StaffedRun(source, run, start, steps);
    var p := After(source, run, start, steps);
    hide After;
    if p.workers != map[] {
      var id := BusyWorker(source, run, p);
      var s := WorkerStep(source, run, p, id);
    }
    EndComplete(source, run, p);
  }

  lemma {:induction false} BoundedRun(source: Source, run: Item -> Outcome, p: Pool, steps: seq<Step>)
    requires Inv(source, run, p) && Staffed(p) && Bounded(p) && p.desired >= 1
    requires Possible(source, run, p, steps) && Steady(source, run, p, steps)
    ensures Bounded(After(source, run, p, steps)) && After(source, run, p, steps).desired >= 1
    decreases |steps|
  {
    if steps != [] {
      StepOk(source, run, p, steps[0]);
      StaffedStep(source, run, p, steps[0]);
      StepWorks(source, run, p, steps[0], 0);
      hide Inv, Apply, Enabled, Bounded, Staffed;
      BoundedRun(source, run, Apply(source, run, p, steps[0]), steps[1..]);
    }
  }
}
