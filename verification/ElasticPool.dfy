/**
 The elastic thread pool: workers, the loader among them, and the manager, as atomic steps between
 lock acquisitions.  Every interleaving hands items out in order and loses none while it runs; what it
 returns, if it does, is what a sequential map returns.
 */
module ElasticPool {
  import opened Prelude

  type Item = int
  datatype Outcome = Ok(value: int) | Err(error: int)

  const INITIAL_WORKER_BURST: nat := 8
  const PULL_BATCH: nat := 64
  const MAX_RUNTIME_THREADS: nat := 4096

  /** A list handed over whole, with its length known to the manager; or a lazy source. */
  datatype Source = Listed(items: seq<Item>) | Lazy

  /** Where a worker is between two lock acquisitions. */
  datatype Phase =
    | Gate
    | Taking
    | Loading
    | Running(index: nat, item: Item)
    | Erroring(error: int)
    | Leaving

  datatype Pool = Pool(
    desired: nat,
    exhausted: bool,
    loading: bool,
    buffer: seq<Item>,
    stop: bool,
    nextItem: nat,
    nextWorker: nat,
    workers: map<nat, Phase>,
    results: map<nat, int>,
    firstError: Option<int>,
    returned: bool,
    loaded: seq<Item>,
    ended: bool)

  datatype Load = Batch(items: seq<Item>) | LoadError(error: int)

  /** One atomic step: a worker's next critical section, the end of a load or of a job, or the manager
      waking up and reading the limit. */
  datatype Step =
    | CheckGate(id: nat)
    | TakeItem(id: nat)
    | FinishLoad(id: nat, load: Load)
    | FinishRun(id: nat)
    | ReportError(id: nat)
    | Leave(id: nat)
    | ManagerTurn(limit: nat)

  // ---- the steps -----------------------------------------------------------------------------

  function Move(p: Pool, id: nat, phase: Phase): Pool {
    p.(workers := p.workers[id := phase])
  }

  function Spawn(p: Pool, count: nat): Pool
    decreases count
  {
    if count == 0 then p
    else Spawn(p.(workers := p.workers[p.nextWorker := Gate], nextWorker := p.nextWorker + 1), count - 1)
  }

  function KnownCount(source: Source): Option<nat> {
    if source.Listed? then Some(|source.items|) else None
  }

  function Start(source: Source, desired: nat): Pool {
    var known := KnownCount(source);
    var burst := Min(desired, INITIAL_WORKER_BURST);
    var count := if known.Some? then Min(burst, known.value) else burst;
    Check(Spawn(Pool(desired, false, false, [], false, 0, 0, map[], map[], None, false, [], false), count))
  }

  /** The condition of the manager's loop. */
  function Check(p: Pool): Pool {
    p.(returned := p.workers == map[] && (p.exhausted || p.firstError.Some?))
  }

  function Needed(source: Source, p: Pool): int {
    var needed := p.desired - |p.workers|;
    if source.Listed? then Min(needed, Max(0, |source.items| - p.nextItem)) else needed
  }

  function Turn(source: Source, p: Pool, limit: nat): Pool {
    if p.firstError.Some? then Check(p.(stop := true))
    else
      var q := p.(desired := limit);
      Check(if !q.exhausted && |q.workers| < q.desired
            then Spawn(q, Max(0, Min(Needed(source, q), Max(1, |q.workers|))))
            else q)
  }

  function Fail(p: Pool, id: nat, error: int): Pool {
    Move(p.(firstError := if p.firstError.Some? then p.firstError else Some(error), stop := true), id, Leaving)
  }

  function Take(p: Pool, id: nat): Pool {
    if p.stop then Move(p, id, Leaving)
    else if p.buffer != [] then
      Move(p.(buffer := p.buffer[1..], nextItem := p.nextItem + 1), id, Running(p.nextItem, p.buffer[0]))
    else if p.exhausted then Move(p, id, Leaving)
    else if p.loading then p
    else Move(p.(loading := true), id, Loading)
  }

  function EndLoad(p: Pool, id: nat, load: Load): Pool {
    match load
    case LoadError(error) => Move(p.(loading := false), id, Erroring(error))
    case Batch(items) =>
      if items != [] then
        Move(p.(loading := false, buffer := p.buffer + items, loaded := p.loaded + items), id, Taking)
      else
        Move(p.(loading := false, exhausted := true, ended := !p.stop), id, Leaving)
  }

  function EndRun(p: Pool, id: nat, outcome: Outcome): Pool
    requires id in p.workers && p.workers[id].Running?
  {
    match outcome
    case Ok(value) => Move(p.(results := p.results[p.workers[id].index := value]), id, Gate)
    case Err(error) => Move(p, id, Erroring(error))
  }

  predicate Enabled(source: Source, p: Pool, s: Step) {
    match s
    case CheckGate(id) => id in p.workers && p.workers[id] == Gate
    case TakeItem(id) => id in p.workers && p.workers[id] == Taking
    case FinishLoad(id, load) =>
      && id in p.workers && p.workers[id] == Loading
      && (source.Listed? ==>
            load == Batch(if |p.loaded| < |source.items| then [source.items[|p.loaded|]] else []))
      && (load.Batch? ==> |load.items| <= PULL_BATCH)
    case FinishRun(id) => id in p.workers && p.workers[id].Running?
    case ReportError(id) => id in p.workers && p.workers[id].Erroring?
    case Leave(id) => id in p.workers && p.workers[id] == Leaving
    case ManagerTurn(limit) => !p.returned && 1 <= limit <= MAX_RUNTIME_THREADS
  }

  ghost function Apply(source: Source, run: Item -> Outcome, p: Pool, s: Step): Pool
    requires Enabled(source, p, s)
  {
    match s
    case CheckGate(id) => Move(p, id, if p.stop || |p.workers| > p.desired then Leaving else Taking)
    case TakeItem(id) => Take(p, id)
    case FinishLoad(id, load) => EndLoad(p, id, load)
    case FinishRun(id) => EndRun(p, id, run(p.workers[id].item))
    case ReportError(id) => Fail(p, id, p.workers[id].error)
    case Leave(id) => p.(workers := p.workers - {id})
    case ManagerTurn(limit) => Turn(source, p, limit)
  }

  // ---- the invariant -------------------------------------------------------------------------

  type Workers = map<nat, Phase>

  predicate Runs(workers: Workers, id: nat, j: nat) {
    id in workers && workers[id].Running? && workers[id].index == j
  }

  predicate Errs(workers: Workers, id: nat) {
    id in workers && workers[id].Erroring?
  }

  predicate Loads(workers: Workers, id: nat) {
    id in workers && workers[id] == Loading
  }

  ghost predicate WorkersOk(workers: Workers, nextItem: nat, loaded: seq<Item>, results: map<nat, int>) {
    && (forall id | id in workers && workers[id].Running? ::
          workers[id].index < nextItem <= |loaded| && workers[id].item == loaded[workers[id].index]
            && workers[id].index !in results)
    && (forall a, b, j | Runs(workers, a, j) && Runs(workers, b, j) :: a == b)
  }

  /** The loading flag is up exactly while one worker loads. */
  ghost predicate LoaderOk(workers: Workers, loading: bool) {
    && (loading ==> exists id :: Loads(workers, id))
    && (forall id | Loads(workers, id) :: loading)
    && (forall a, b | Loads(workers, a) && Loads(workers, b) :: a == b)
  }

  /** Nothing is lost: what was loaded and not yet handed out is in the buffer, in order, and the source
      is only ever called exhausted when the buffer is empty. */
  ghost predicate BufferOk(source: Source, p: Pool) {
    && p.nextItem <= |p.loaded| && p.buffer == p.loaded[p.nextItem..]
    && (p.exhausted ==> p.buffer == [] && !p.loading && (p.ended || p.stop))
    && (p.loading ==> p.buffer == [])
    && (source.Listed? ==> |p.loaded| <= |source.items| && p.loaded == source.items[..|p.loaded|])
    && (source.Listed? && p.ended ==> p.loaded == source.items)
  }

  /** Every index handed out has its result, or is with a worker, or an error is on its way. */
  ghost predicate Accounted(workers: Workers, results: map<nat, int>, failed: bool, j: nat) {
    j in results || (exists id :: Runs(workers, id, j)) || (exists id :: Errs(workers, id)) || failed
  }

  ghost predicate AccountsOk(workers: Workers, nextItem: nat, results: map<nat, int>, failed: bool) {
    forall j | 0 <= j < nextItem :: Accounted(workers, results, failed, j)
  }

  ghost predicate ValuesOk(run: Item -> Outcome, nextItem: nat, loaded: seq<Item>, results: map<nat, int>) {
    forall j | j in results :: j < nextItem <= |loaded| && run(loaded[j]) == Ok(results[j])
  }

  ghost predicate FlagsOk(p: Pool) {
    && (forall id | id in p.workers :: id < p.nextWorker)
    && (p.stop ==> p.firstError.Some?)
    && (p.returned ==> p.workers == map[] && (p.exhausted || p.firstError.Some?))
  }

  ghost predicate Inv(source: Source, run: Item -> Outcome, p: Pool) {
    && WorkersOk(p.workers, p.nextItem, p.loaded, p.results)
    && LoaderOk(p.workers, p.loading)
    && BufferOk(source, p)
    && AccountsOk(p.workers, p.nextItem, p.results, p.firstError.Some?)
    && ValuesOk(run, p.nextItem, p.loaded, p.results)
    && FlagsOk(p)
  }

  // ---- what a change of one worker keeps -----------------------------------------------------

  /** A worker that neither runs nor holds an error can be given any phase. */
  lemma AccountsMove(workers: Workers, nextItem: nat, results: map<nat, int>, failed: bool, id: nat, phase: Phase)
    requires AccountsOk(workers, nextItem, results, failed) && id in workers
    requires !workers[id].Running? && (workers[id].Erroring? ==> failed)
    ensures AccountsOk(workers[id := phase], nextItem, results, failed)
  {
    var workers' := workers[id := phase];
    forall j | 0 <= j < nextItem ensures Accounted(workers', results, failed, j) {
      assert Accounted(workers, results, failed, j);
      if k :| Runs(workers, k, j) {
        assert Runs(workers', k, j);
      } else if k :| Errs(workers, k) {
        assert failed || Errs(workers', k);
      }
    }
  }

  /** A running worker that ends its job settles its own index and no other. */
  lemma AccountsEnd(workers: Workers, nextItem: nat, results: map<nat, int>, failed: bool, id: nat, phase: Phase,
      results': map<nat, int>)
    requires AccountsOk(workers, nextItem, results, failed) && id in workers && workers[id].Running?
    requires forall j | j in results :: j in results'
    requires workers[id].index in results' || phase.Erroring?
    ensures AccountsOk(workers[id := phase], nextItem, results', failed)
  {
    var workers' := workers[id := phase];
    forall j | 0 <= j < nextItem ensures Accounted(workers', results', failed, j) {
      assert Accounted(workers, results, failed, j);
      if phase.Erroring? {
        assert Errs(workers', id);
      } else if k :| Runs(workers, k, j) {
        assert k == id || Runs(workers', k, j);
      } else if k :| Errs(workers, k) {
        assert Errs(workers', k);
      }
    }
  }

  lemma LoaderMove(workers: Workers, loading: bool, id: nat, phase: Phase, loading': bool)
    requires LoaderOk(workers, loading) && id in workers
    requires phase == Loading ==> !loading && loading'
    requires workers[id] == Loading ==> phase != Loading && !loading'
    requires phase != Loading && workers[id] != Loading ==> loading' == loading
    ensures LoaderOk(workers[id := phase], loading')
  {
    var workers' := workers[id := phase];
    if loading' {
      if phase == Loading {
        assert Loads(workers', id);
      } else {
        var k :| Loads(workers, k);
        assert Loads(workers', k);
      }
    }
    forall k | Loads(workers', k) ensures loading' {
      assert k == id || Loads(workers, k);
      if workers[id] == Loading { assert Loads(workers, id); }
    }
    forall a, b | Loads(workers', a) && Loads(workers', b) ensures a == b {
      assert a == id || Loads(workers, a);
      assert b == id || Loads(workers, b);
    }
  }

  lemma WorkersMove(workers: Workers, nextItem: nat, loaded: seq<Item>, results: map<nat, int>, id: nat, phase: Phase)
    requires WorkersOk(workers, nextItem, loaded, results) && id in workers && !phase.Running?
    ensures WorkersOk(workers[id := phase], nextItem, loaded, results)
  {
    var workers' := workers[id := phase];
    forall a, b, j | Runs(workers', a, j) && Runs(workers', b, j) ensures a == b {
      assert Runs(workers, a, j) && Runs(workers, b, j);
    }
  }

  // ---- every step keeps it -------------------------------------------------------------------

  /** Spawning changes nothing but the worker table, which it extends by fresh workers at the gate. */
  lemma {:induction false} SpawnOk(p: Pool, count: nat)
    requires forall id | id in p.workers :: id < p.nextWorker
    decreases count
    ensures var q := Spawn(p, count);
      && q == p.(workers := q.workers, nextWorker := q.nextWorker)
      && |q.workers| == |p.workers| + count
      && (forall id | id in q.workers :: id < q.nextWorker)
      && (forall id | id in p.workers :: id in q.workers && q.workers[id] == p.workers[id])
      && (forall id | id in q.workers && id !in p.workers :: q.workers[id] == Gate)
  {
    if count > 0 {
      SpawnOk(p.(workers := p.workers[p.nextWorker := Gate], nextWorker := p.nextWorker + 1), count - 1);
    }
  }

  /** Fresh workers at the gate touch nothing. */
  lemma GrowOk(p: Pool, workers': Workers)
    requires WorkersOk(p.workers, p.nextItem, p.loaded, p.results) && LoaderOk(p.workers, p.loading)
    requires AccountsOk(p.workers, p.nextItem, p.results, p.firstError.Some?)
    requires forall id | id in p.workers :: id in workers' && workers'[id] == p.workers[id]
    requires forall id | id in workers' && id !in p.workers :: workers'[id] == Gate
    ensures WorkersOk(workers', p.nextItem, p.loaded, p.results) && LoaderOk(workers', p.loading)
    ensures AccountsOk(workers', p.nextItem, p.results, p.firstError.Some?)
  {
    forall j | 0 <= j < p.nextItem ensures Accounted(workers', p.results, p.firstError.Some?, j) {
      assert Accounted(p.workers, p.results, p.firstError.Some?, j);
      if k :| Runs(p.workers, k, j) {
        assert Runs(workers', k, j);
      } else if k :| Errs(p.workers, k) {
        assert Errs(workers', k);
      }
    }
    if p.loading {
      var k :| Loads(p.workers, k);
      assert Loads(workers', k);
    }
    forall a, b, j | Runs(workers', a, j) && Runs(workers', b, j) ensures a == b {
      assert Runs(p.workers, a, j) && Runs(p.workers, b, j);
    }
    forall a | Loads(workers', a) ensures Loads(p.workers, a) { }
  }

  lemma StartOk(source: Source, run: Item -> Outcome, desired: nat)
    ensures Inv(source, run, Start(source, desired))
  {
    var empty := Pool(desired, false, false, [], false, 0, 0, map[], map[], None, false, [], false);
    var known := KnownCount(source);
    var burst := Min(desired, INITIAL_WORKER_BURST);
    SpawnOk(empty, if known.Some? then Min(burst, known.value) else burst);
    GrowOk(empty, Start(source, desired).workers);
  }

  lemma TurnOk(source: Source, run: Item -> Outcome, p: Pool, limit: nat)
    requires Inv(source, run, p) && !p.returned
    ensures Inv(source, run, Turn(source, p, limit))
  {
    hide WorkersOk, LoaderOk, AccountsOk, ValuesOk;
    var q := p.(desired := limit);
    SpawnOk(q, Max(0, Min(Needed(source, q), Max(1, |q.workers|))));
    GrowOk(p, Turn(source, p, limit).workers);
  }

  /** A worker between jobs may move to any phase in which it neither runs, loads nor holds an error. */
  lemma IdleMoveOk(source: Source, run: Item -> Outcome, p: Pool, id: nat, phase: Phase)
    requires Inv(source, run, p) && id in p.workers
    requires p.workers[id].Gate? || p.workers[id].Taking?
    requires phase.Gate? || phase.Taking? || phase.Leaving?
    ensures Inv(source, run, Move(p, id, phase))
  {
    hide WorkersOk, LoaderOk, AccountsOk, ValuesOk;
    AccountsMove(p.workers, p.nextItem, p.results, p.firstError.Some?, id, phase);
    LoaderMove(p.workers, p.loading, id, phase, p.loading);
    WorkersMove(p.workers, p.nextItem, p.loaded, p.results, id, phase);
  }

  /** Handing out the next item gives its index to this worker alone. */
  lemma HandOutOk(source: Source, run: Item -> Outcome, p: Pool, id: nat)
    requires Inv(source, run, p) && id in p.workers && p.workers[id] == Taking && p.buffer != []
    ensures Inv(source, run,
      Move(p.(buffer := p.buffer[1..], nextItem := p.nextItem + 1), id, Running(p.nextItem, p.buffer[0])))
  {
    var phase := Running(p.nextItem, p.buffer[0]);
    var workers' := p.workers[id := phase];
    AccountsMove(p.workers, p.nextItem, p.results, p.firstError.Some?, id, phase);
    LoaderMove(p.workers, p.loading, id, phase, p.loading);
    hide LoaderOk;
    assert AccountsOk(workers', p.nextItem + 1, p.results, p.firstError.Some?) by {
      assert Runs(workers', id, p.nextItem);
    }
    hide AccountsOk;
    forall a, b, j | Runs(workers', a, j) && Runs(workers', b, j) ensures a == b {
      assert a == id || Runs(p.workers, a, j);
      assert b == id || Runs(p.workers, b, j);
    }
  }

  lemma TakeOk(source: Source, run: Item -> Outcome, p: Pool, id: nat)
    requires Inv(source, run, p) && id in p.workers && p.workers[id] == Taking
    ensures Inv(source, run, Take(p, id))
  {
    if p.stop || (p.buffer == [] && p.exhausted) {
      IdleMoveOk(source, run, p, id, Leaving);
    } else if p.buffer != [] {
      HandOutOk(source, run, p, id);
    } else if !p.loading {
      hide WorkersOk, LoaderOk, AccountsOk, ValuesOk;
      AccountsMove(p.workers, p.nextItem, p.results, p.firstError.Some?, id, Loading);
      LoaderMove(p.workers, p.loading, id, Loading, true);
      WorkersMove(p.workers, p.nextItem, p.loaded, p.results, id, Loading);
    }
  }

  lemma LoadedMore(run: Item -> Outcome, p: Pool, items: seq<Item>)
    requires WorkersOk(p.workers, p.nextItem, p.loaded, p.results) && ValuesOk(run, p.nextItem, p.loaded, p.results)
    ensures WorkersOk(p.workers, p.nextItem, p.loaded + items, p.results)
      && ValuesOk(run, p.nextItem, p.loaded + items, p.results)
  {
  }

  lemma EndLoadOk(source: Source, run: Item -> Outcome, p: Pool, id: nat, load: Load)
    requires Inv(source, run, p) && Enabled(source, p, FinishLoad(id, load))
    ensures Inv(source, run, EndLoad(p, id, load))
  {
    hide WorkersOk, AccountsOk, ValuesOk;
    var phase := match load
      case LoadError(error) => Erroring(error)
      case Batch(items) => if items != [] then Taking else Leaving;
    assert p.loading by { assert Loads(p.workers, id); }
    hide LoaderOk;
    AccountsMove(p.workers, p.nextItem, p.results, p.firstError.Some?, id, phase);
    LoaderMove(p.workers, p.loading, id, phase, false);
    WorkersMove(p.workers, p.nextItem, p.loaded, p.results, id, phase);
    if load.Batch? { LoadedMore(run, p.(workers := p.workers[id := phase]), load.items); }
    EndLoadBuffer(source, p, id, load);
    hide BufferOk, FlagsOk;
  }

  lemma BatchBuffer(loaded: seq<Item>, next: nat, items: seq<Item>)
    requires next <= |loaded|
    ensures (loaded + items)[next..] == loaded[next..] + items
  {
  }

  lemma NextTaken(items: seq<Item>, n: nat)
    requires n < |items|
    ensures items[..n + 1] == items[..n] + [items[n]]
  {
  }

  lemma EndLoadFlags(source: Source, p: Pool, id: nat, load: Load)
    requires FlagsOk(p) && Enabled(source, p, FinishLoad(id, load))
    ensures FlagsOk(EndLoad(p, id, load))
  {
  }

  lemma EndLoadBuffer(source: Source, p: Pool, id: nat, load: Load)
    requires BufferOk(source, p) && FlagsOk(p) && p.loading && Enabled(source, p, FinishLoad(id, load))
    ensures BufferOk(source, EndLoad(p, id, load)) && FlagsOk(EndLoad(p, id, load))
  {
    EndLoadFlags(source, p, id, load);
    hide FlagsOk;
    if load.Batch? {
      BatchBuffer(p.loaded, p.nextItem, load.items);
      if source.Listed? && load.items != [] {
        NextTaken(source.items, |p.loaded|);
      }
    }
  }

  /** Recording the result of one running worker's index leaves the others without theirs. */
  lemma WorkersDone(workers: Workers, nextItem: nat, loaded: seq<Item>, results: map<nat, int>, id: nat, phase: Phase,
                    results': map<nat, int>)
    requires WorkersOk(workers, nextItem, loaded, results) && id in workers && workers[id].Running? && !phase.Running?
    requires forall j | j in results' :: j in results || j == workers[id].index
    ensures WorkersOk(workers[id := phase], nextItem, loaded, results')
  {
    WorkersMove(workers, nextItem, loaded, results, id, phase);
    var workers' := workers[id := phase];
    forall k | k in workers' && workers'[k].Running? ensures workers'[k].index !in results' {
      assert Runs(workers, k, workers'[k].index) && Runs(workers, id, workers[id].index);
    }
  }

  lemma RecordOk(source: Source, run: Item -> Outcome, p: Pool, id: nat, value: int)
    requires Inv(source, run, p) && id in p.workers && p.workers[id].Running? && run(p.workers[id].item) == Ok(value)
    ensures Inv(source, run, Move(p.(results := p.results[p.workers[id].index := value]), id, Gate))
  {
    hide LoaderOk, AccountsOk;
    var results := p.results[p.workers[id].index := value];
    assert ValuesOk(run, p.nextItem, p.loaded, results);
    AccountsEnd(p.workers, p.nextItem, p.results, p.firstError.Some?, id, Gate, results);
    LoaderMove(p.workers, p.loading, id, Gate, p.loading);
    WorkersDone(p.workers, p.nextItem, p.loaded, p.results, id, Gate, results);
    hide WorkersOk, ValuesOk;
  }

  lemma EndRunOk(source: Source, run: Item -> Outcome, p: Pool, id: nat)
    requires Inv(source, run, p) && id in p.workers && p.workers[id].Running?
    ensures Inv(source, run, EndRun(p, id, run(p.workers[id].item)))
  {
    hide WorkersOk, LoaderOk, AccountsOk, ValuesOk;
    match run(p.workers[id].item)
    case Ok(value) => RecordOk(source, run, p, id, value);
    case Err(error) =>
      AccountsEnd(p.workers, p.nextItem, p.results, p.firstError.Some?, id, Erroring(error), p.results);
      LoaderMove(p.workers, p.loading, id, Erroring(error), p.loading);
      WorkersMove(p.workers, p.nextItem, p.loaded, p.results, id, Erroring(error));
  }

  lemma FailOk(source: Source, run: Item -> Outcome, p: Pool, id: nat)
    requires Inv(source, run, p) && id in p.workers && p.workers[id].Erroring?
    ensures Inv(source, run, Fail(p, id, p.workers[id].error))
  {
    hide WorkersOk, LoaderOk, ValuesOk;
    LoaderMove(p.workers, p.loading, id, Leaving, p.loading);
    WorkersMove(p.workers, p.nextItem, p.loaded, p.results, id, Leaving);
  }

  lemma LeaveOk(source: Source, run: Item -> Outcome, p: Pool, id: nat)
    requires Inv(source, run, p) && id in p.workers && p.workers[id] == Leaving
    ensures Inv(source, run, p.(workers := p.workers - {id}))
  {
    var workers' := p.workers - {id};
    forall j | 0 <= j < p.nextItem ensures Accounted(workers', p.results, p.firstError.Some?, j) {
      assert Accounted(p.workers, p.results, p.firstError.Some?, j);
      if k :| Runs(p.workers, k, j) {
        assert Runs(workers', k, j);
      } else if k :| Errs(p.workers, k) {
        assert Errs(workers', k);
      }
    }
    if p.loading {
      var k :| Loads(p.workers, k);
      assert Loads(workers', k);
    }
    forall a, b, j | Runs(workers', a, j) && Runs(workers', b, j) ensures a == b {
      assert Runs(p.workers, a, j) && Runs(p.workers, b, j);
    }
    forall a | Loads(workers', a) ensures Loads(p.workers, a) { }
  }

  lemma StepOk(source: Source, run: Item -> Outcome, p: Pool, s: Step)
    requires Inv(source, run, p) && Enabled(source, p, s)
    ensures Inv(source, run, Apply(source, run, p, s))
  {
    hide Inv, Turn, Take, EndLoad, EndRun, Fail;
    match s
    case CheckGate(id) => IdleMoveOk(source, run, p, id, if p.stop || |p.workers| > p.desired then Leaving else Taking);
    case TakeItem(id) => TakeOk(source, run, p, id);
    case FinishLoad(id, load) => EndLoadOk(source, run, p, id, load);
    case FinishRun(id) => EndRunOk(source, run, p, id);
    case ReportError(id) => FailOk(source, run, p, id);
    case Leave(id) => LeaveOk(source, run, p, id);
    case ManagerTurn(limit) => TurnOk(source, run, p, limit);
  }
}
