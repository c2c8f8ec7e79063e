/**
 Where the error of a threaded run comes from: it is what a job or a load raised, carried by the worker that ran
 into it, and of several the one reported first.
 */
module ElasticErrors {
  import opened Prelude
  import opened ElasticPool
  import opened ElasticRuns

  /** Some handed-out item has no result, and its job raises `e`. */
  ghost predicate FromJob(run: Item -> Outcome, p: Pool, e: int) {
    exists j :: FailedAt(run, p, j, e)
  }

  ghost predicate FailedAt(run: Item -> Outcome, p: Pool, j: int, e: int) {
    0 <= j < p.nextItem <= |p.loaded| && j !in p.results && run(p.loaded[j]) == Err(e)
  }

  /** A step records an error exactly when it reports one and none was recorded, and then the reporting worker's
      own; a worker comes to hold an error only as its job or its load raises it. */
  lemma ErrorStep(source: Source, run: Item -> Outcome, p: Pool, s: Step)
    requires Enabled(source, p, s)
    ensures var q := Apply(source, run, p, s);
      && (p.firstError.Some? ==> q.firstError == p.firstError)
      && (p.firstError.None? && s.ReportError? ==> q.firstError == Some(p.workers[s.id].error))
      && (p.firstError.None? && !s.ReportError? ==> q.firstError.None?)
      && forall id, e | id in q.workers && q.workers[id] == Erroring(e) ::
           || (id in p.workers && p.workers[id] == Erroring(e))
           || (s == FinishRun(id) && run(p.workers[id].item) == Err(e))
           || s == FinishLoad(id, LoadError(e))
  {
    hide Take, EndLoad, EndRun, Fail, Turn;
    match s
    case TakeItem(id) => TakeErrors(p, id);
    case FinishLoad(id, load) => LoadErrors(p, id, load);
    case FinishRun(id) => RunErrors(p, id, run(p.workers[id].item));
    case ReportError(id) => FailErrors(p, id, p.workers[id].error);
    case ManagerTurn(limit) => TurnErrors(source, p, limit);
    case _ =>
  }

  lemma TakeErrors(p: Pool, id: nat)
    requires id in p.workers
    ensures var q := Take(p, id);
      q.firstError == p.firstError
      && forall w, e | w in q.workers && q.workers[w] == Erroring(e) :: w in p.workers && p.workers[w] == Erroring(e)
  {
  }

  lemma LoadErrors(p: Pool, id: nat, load: Load)
    requires id in p.workers
    ensures var q := EndLoad(p, id, load);
      q.firstError == p.firstError
      && forall w, e | w in q.workers && q.workers[w] == Erroring(e) ::
           (w in p.workers && p.workers[w] == Erroring(e)) || (w == id && load == LoadError(e))
  {
  }

  lemma RunErrors(p: Pool, id: nat, outcome: Outcome)
    requires id in p.workers && p.workers[id].Running?
    ensures var q := EndRun(p, id, outcome);
      q.firstError == p.firstError
      && forall w, e | w in q.workers && q.workers[w] == Erroring(e) ::
           (w in p.workers && p.workers[w] == Erroring(e)) || (w == id && outcome == Err(e))
  {
  }

  lemma FailErrors(p: Pool, id: nat, error: int)
    requires id in p.workers
    ensures var q := Fail(p, id, error);
      && (p.firstError.Some? ==> q.firstError == p.firstError) && (p.firstError.None? ==> q.firstError == Some(error))
      && forall w, e | w in q.workers && q.workers[w] == Erroring(e) :: w in p.workers && p.workers[w] == Erroring(e)
  {
  }

  lemma TurnErrors(source: Source, p: Pool, limit: nat)
    ensures var q := Turn(source, p, limit);
      q.firstError == p.firstError
      && forall w, e | w in q.workers && q.workers[w] == Erroring(e) :: w in p.workers && p.workers[w] == Erroring(e)
  {
    var r := p.(desired := limit);
    SpawnErrors(r, Max(0, Min(Needed(source, r), Max(1, |r.workers|))));
  }

  lemma {:induction false} SpawnErrors(p: Pool, count: nat)
    ensures var q := Spawn(p, count);
      q.firstError == p.firstError
      && forall w, e | w in q.workers && q.workers[w] == Erroring(e) :: w in p.workers && p.workers[w] == Erroring(e)
    decreases count
  {
    if count > 0 {
      SpawnErrors(p.(workers := p.workers[p.nextWorker := Gate], nextWorker := p.nextWorker + 1), count - 1);
    }
  }

  // ---- whole runs ----------------------------------------------------------------------------

  /** A load of the run raises `e`. */
  ghost predicate FromLoad(steps: seq<Step>, e: int) {
    exists id :: FinishLoad(id, LoadError(e)) in steps
  }

  /** No error recorded, and none with a worker. */
  ghost predicate Clean(p: Pool) {
    p.firstError.None? && forall id :: !Errs(p.workers, id)
  }

  ghost predicate Carries(p: Pool, e: int) {
    p.firstError == Some(e) || exists id :: id in p.workers && p.workers[id] == Erroring(e)
  }

  ghost predicate ErrorsOk(run: Item -> Outcome, p: Pool, steps: seq<Step>) {
    forall e | Carries(p, e) :: FromJob(run, p, e) || FromLoad(steps, e)
  }

  /** A failed item never gets a result. */
  lemma FailedKept(source: Source, run: Item -> Outcome, p: Pool, s: Step, j: int, e: int)
    requires Inv(source, run, p) && Enabled(source, p, s) && FailedAt(run, p, j, e)
    ensures FailedAt(run, Apply(source, run, p, s), j, e)
  {
    StepOk(source, run, p, s);
    StepKeepsItems(source, run, p, s);
    var q := Apply(source, run, p, s);
    assert q.nextItem <= |q.loaded|;
    assert q.loaded[j] == p.loaded[j];
    hide Apply;
  }

  lemma StepKeepsItems(source: Source, run: Item -> Outcome, p: Pool, s: Step)
    requires Enabled(source, p, s)
    ensures KeepsItems(p, Apply(source, run, p, s))
  {
    hide KeepsItems, Take, EndLoad, EndRun, Fail, Turn;
    match s
    case CheckGate(id) => SameItems(p, Apply(source, run, p, s));
    case TakeItem(id) => TakeKeepsItems(p, id);
    case FinishLoad(id, load) => LoadKeepsItems(p, id, load);
    case FinishRun(id) => RunKeepsItems(p, id, run(p.workers[id].item));
    case ReportError(id) => FailKeepsItems(p, id, p.workers[id].error);
    case Leave(id) => SameItems(p, Apply(source, run, p, s));
    case ManagerTurn(limit) => TurnKeepsItems(source, p, limit);
  }

  /** Items are only ever added and handed out. */
  ghost predicate KeepsItems(p: Pool, q: Pool) {
    p.nextItem <= q.nextItem && p.loaded <= q.loaded
  }

  lemma SameItems(p: Pool, q: Pool)
    requires q.nextItem == p.nextItem && q.loaded == p.loaded
    ensures KeepsItems(p, q)
  {
  }

  lemma TakeKeepsItems(p: Pool, id: nat)
    requires id in p.workers
    ensures KeepsItems(p, Take(p, id))
  {
  }

  lemma LoadKeepsItems(p: Pool, id: nat, load: Load)
    ensures KeepsItems(p, EndLoad(p, id, load))
  {
  }

  lemma RunKeepsItems(p: Pool, id: nat, outcome: Outcome)
    requires id in p.workers && p.workers[id].Running?
    ensures KeepsItems(p, EndRun(p, id, outcome))
  {
  }

  lemma FailKeepsItems(p: Pool, id: nat, error: int)
    ensures KeepsItems(p, Fail(p, id, error))
  {
  }

  lemma TurnKeepsItems(source: Source, p: Pool, limit: nat)
    ensures KeepsItems(p, Turn(source, p, limit))
  {
    var r := p.(desired := limit);
    SpawnKeepsItems(r, Max(0, Min(Needed(source, r), Max(1, |r.workers|))));
  }

  lemma {:induction false} SpawnKeepsItems(p: Pool, count: nat)
    ensures var q := Spawn(p, count); q.loaded == p.loaded && q.nextItem == p.nextItem
    decreases count
  {
    if count > 0 {
      SpawnKeepsItems(p.(workers := p.workers[p.nextWorker := Gate], nextWorker := p.nextWorker + 1), count - 1);
    }
  }

  lemma FailedBegins(source: Source, run: Item -> Outcome, p: Pool, id: nat, e: int)
    requires Inv(source, run, p) && Enabled(source, p, FinishRun(id)) && run(p.workers[id].item) == Err(e)
    ensures FailedAt(run, Apply(source, run, p, FinishRun(id)), p.workers[id].index, e)
  {
  }

  lemma ErrorsStep(source: Source, run: Item -> Outcome, p: Pool, s: Step, steps: seq<Step>)
    requires Inv(source, run, p) && Enabled(source, p, s) && s in steps && ErrorsOk(run, p, steps)
    ensures ErrorsOk(run, Apply(source, run, p, s), steps)
  {
    hide Apply, Inv, FailedAt;
    ErrorStep(source, run, p, s);
    var q := Apply(source, run, p, s);
    forall e | Carries(q, e) ensures FromJob(run, q, e) || FromLoad(steps, e) {
      if s.FinishRun? && run(p.workers[s.id].item) == Err(e) {
        FailedBegins(source, run, p, s.id, e);
      } else if s.FinishLoad? && s.load == LoadError(e) {
        assert FromLoad(steps, e);
      } else {
        assert Carries(p, e);
        if FromJob(run, p, e) {
          var j :| FailedAt(run, p, j, e);
          FailedKept(source, run, p, s, j, e);
        }
      }
    }
  }

  lemma {:induction false} ErrorsRun(source: Source, run: Item -> Outcome, p: Pool, steps: seq<Step>, all: seq<Step>)
    requires Inv(source, run, p) && Possible(source, run, p, steps) && ErrorsOk(run, p, all)
    requires forall s | s in steps :: s in all
    ensures ErrorsOk(run, After(source, run, p, steps), all)
    decreases |steps|
  {
    if steps != [] {
      hide Inv, Apply, Enabled, ErrorsOk;
      StepOk(source, run, p, steps[0]);
      ErrorsStep(source, run, p, steps[0], all);
      ErrorsRun(source, run, Apply(source, run, p, steps[0]), steps[1..], all);
    }
  }

  /** A pool starts clean. */
  lemma StartClean(source: Source, desired: nat)
    ensures Clean(Start(source, desired))
  {
    var empty := Pool(desired, false, false, [], false, 0, 0, map[], map[], None, false, [], false);
    var known := KnownCount(source);
    var burst := Min(desired, INITIAL_WORKER_BURST);
    SpawnErrors(empty, if known.Some? then Min(burst, known.value) else burst);
    ErrorsBefore(empty, Start(source, desired));
  }

  lemma ErrorsBefore(p: Pool, q: Pool)
    requires forall w, e | w in q.workers && q.workers[w] == Erroring(e) ::
      w in p.workers && p.workers[w] == Erroring(e)
    ensures forall id | Errs(q.workers, id) :: Errs(p.workers, id)
  {
    forall id | Errs(q.workers, id) ensures Errs(p.workers, id) {
      assert q.workers[id] == Erroring(q.workers[id].error);
    }
  }

  /** Whatever error a run ends with was raised by the job of an item handed out, which then has no result, or by a
      load of the run. */
  lemma ErrorFrom(source: Source, run: Item -> Outcome, p: Pool, steps: seq<Step>, e: int)
    requires Inv(source, run, p) && Clean(p) && Possible(source, run, p, steps)
    requires After(source, run, p, steps).firstError == Some(e)
    ensures FromJob(run, After(source, run, p, steps), e) || FromLoad(steps, e)
    ensures source.Listed? ==> !FromLoad(steps, e)
  {
    forall error | Carries(p, error) ensures false {
      if id :| id in p.workers && p.workers[id] == Erroring(error) { assert Errs(p.workers, id); }
    }
    ErrorsRun(source, run, p, steps, steps);
    if source.Listed? && FromLoad(steps, e) {
      var id :| FinishLoad(id, LoadError(e)) in steps;
      ListLoads(source, run, p, steps, FinishLoad(id, LoadError(e)));
    }
  }

  /** Reading a list does not raise. */
  lemma {:induction false} ListLoads(source: Source, run: Item -> Outcome, p: Pool, steps: seq<Step>, s: Step)
    requires source.Listed? && Possible(source, run, p, steps) && s in steps && s.FinishLoad?
    ensures s.load.Batch?
    decreases |steps|
  {
    hide Apply;
    if s != steps[0] { ListLoads(source, run, Apply(source, run, p, steps[0]), steps[1..], s); }
  }

  /** The first step of the run to report an error. */
  ghost predicate FirstReport(steps: seq<Step>, k: nat) {
    k < |steps| && steps[k].ReportError? && forall j | 0 <= j < k :: !steps[j].ReportError?
  }

  lemma {:induction false} ErrorStays(source: Source, run: Item -> Outcome, p: Pool, steps: seq<Step>)
    requires Possible(source, run, p, steps) && p.firstError.Some?
    ensures After(source, run, p, steps).firstError == p.firstError
    decreases |steps|
  {
    if steps != [] {
      ErrorStep(source, run, p, steps[0]);
      hide Apply, Enabled;
      ErrorStays(source, run, Apply(source, run, p, steps[0]), steps[1..]);
    }
  }

  /** The recorded error is that of the worker that reports first, at that moment; no later report replaces it. */
  lemma {:induction false} FirstReported(source: Source, run: Item -> Outcome, p: Pool, steps: seq<Step>)
    requires Possible(source, run, p, steps) && p.firstError.None?
    ensures After(source, run, p, steps).firstError.None? <==> forall k: nat :: !FirstReport(steps, k)
    ensures forall k: nat | FirstReport(steps, k) ::
      && Possible(source, run, p, steps[..k])
      && var before, id := After(source, run, p, steps[..k]), steps[k].id;
         && id in before.workers && before.workers[id].Erroring?
         && After(source, run, p, steps).firstError == Some(before.workers[id].error)
    decreases |steps|
  {
    if steps != [] {
      ErrorStep(source, run, p, steps[0]);
      var q, rest := Apply(source, run, p, steps[0]), steps[1..];
      if steps[0].ReportError? {
        assert steps[..0] == [] && FirstReport(steps, 0);
        hide Apply;
        ErrorStays(source, run, q, rest);
        assert forall k: nat | FirstReport(steps, k) :: k == 0;
      } else {
        hide Apply, Enabled, FirstReport;
        FirstReported(source, run, q, rest);
        forall k: nat ensures FirstReport(steps, k) <==> k > 0 && FirstReport(rest, k - 1) {
          FirstShifts(steps, k);
        }
        forall k: nat | FirstReport(steps, k) ensures steps[..k] == [steps[0]] + rest[..k - 1] {
        }
        forall k: nat | FirstReport(steps, k)
          ensures Possible(source, run, p, steps[..k])
          ensures After(source, run, p, steps[..k]) == After(source, run, q, rest[..k - 1])
        {
          assert steps[..k][1..] == rest[..k - 1] && steps[..k][0] == steps[0];
        }
        if After(source, run, p, steps).firstError.Some? {
          var k: nat :| FirstReport(rest, k);
          assert FirstReport(steps, k + 1);
        }
      }
    }
  }

  lemma FirstShifts(steps: seq<Step>, k: nat)
    requires steps != [] && !steps[0].ReportError?
    ensures FirstReport(steps, k) <==> k > 0 && FirstReport(steps[1..], k - 1)
  {
    if k > 0 && FirstReport(steps[1..], k - 1) {
      forall j | 0 <= j < k ensures !steps[j].ReportError? {
        if j > 0 { assert steps[1..][j - 1] == steps[j]; }
      }
    }
  }

  // ---- after an error ------------------------------------------------------------------------

  /** From the first error on nothing new is begun. */
  ghost predicate Stopping(p: Pool) {
    p.firstError.Some? ==> p.stop
  }

  /** The stop is not taken back, no item is handed out and no load begun. */
  ghost predicate NothingNew(p: Pool, q: Pool) {
    q.stop && q.nextItem == p.nextItem && forall id | Loads(q.workers, id) :: Loads(p.workers, id)
  }

  lemma StepStops(source: Source, run: Item -> Outcome, p: Pool, s: Step)
    requires Enabled(source, p, s) && Stopping(p)
    ensures Stopping(Apply(source, run, p, s))
    ensures p.stop ==> NothingNew(p, Apply(source, run, p, s))
  {
    hide Take, EndLoad, EndRun, Fail, Turn;
    match s
    case TakeItem(id) => TakeStops(p, id);
    case FinishLoad(id, load) => LoadStops(p, id, load);
    case FinishRun(id) => RunStops(p, id, run(p.workers[id].item));
    case ReportError(id) => FailStops(p, id, p.workers[id].error);
    case ManagerTurn(limit) => TurnStops(source, p, limit);
    case _ =>
  }

  lemma TakeStops(p: Pool, id: nat)
    requires Stopping(p)
    ensures Stopping(Take(p, id)) && (p.stop ==> NothingNew(p, Take(p, id)))
  {
  }

  lemma LoadStops(p: Pool, id: nat, load: Load)
    requires Stopping(p)
    ensures Stopping(EndLoad(p, id, load)) && (p.stop ==> NothingNew(p, EndLoad(p, id, load)))
  {
  }

  lemma RunStops(p: Pool, id: nat, outcome: Outcome)
    requires Stopping(p) && id in p.workers && p.workers[id].Running?
    ensures Stopping(EndRun(p, id, outcome)) && (p.stop ==> NothingNew(p, EndRun(p, id, outcome)))
  {
  }

  lemma FailStops(p: Pool, id: nat, error: int)
    ensures Stopping(Fail(p, id, error)) && (p.stop ==> NothingNew(p, Fail(p, id, error)))
  {
  }

  lemma TurnStops(source: Source, p: Pool, limit: nat)
    requires Stopping(p)
    ensures Stopping(Turn(source, p, limit)) && (p.stop ==> NothingNew(p, Turn(source, p, limit)))
  {
    var r := p.(desired := limit);
    SpawnLoads(r, Max(0, Min(Needed(source, r), Max(1, |r.workers|))));
  }

  lemma {:induction false} SpawnLoads(p: Pool, count: nat)
    ensures var q := Spawn(p, count);
      && q.stop == p.stop && q.firstError == p.firstError && q.nextItem == p.nextItem
      && q.loaded == p.loaded && q.ended == p.ended
      && forall id | Loads(q.workers, id) :: Loads(p.workers, id)
    decreases count
  {
    if count > 0 {
      SpawnLoads(p.(workers := p.workers[p.nextWorker := Gate], nextWorker := p.nextWorker + 1), count - 1);
    }
  }

  lemma {:induction false} StopsRun(source: Source, run: Item -> Outcome, p: Pool, steps: seq<Step>)
    requires Possible(source, run, p, steps) && Stopping(p)
    ensures var q := After(source, run, p, steps); Stopping(q) && (p.stop ==> NothingNew(p, q))
    decreases |steps|
  {
    if steps != [] {
      StepStops(source, run, p, steps[0]);
      hide Apply, Enabled;
      StopsRun(source, run, Apply(source, run, p, steps[0]), steps[1..]);
    }
  }

  /** Once an error is recorded no item is handed out and no load begun any more. */
  lemma NothingAfterError(source: Source, run: Item -> Outcome, desired: nat, steps: seq<Step>, later: seq<Step>)
    requires Possible(source, run, Start(source, desired), steps)
    requires Possible(source, run, After(source, run, Start(source, desired), steps), later)
    requires After(source, run, Start(source, desired), steps).firstError.Some?
    ensures var p := After(source, run, Start(source, desired), steps);
      NothingNew(p, After(source, run, p, later))
  {
    StartClean(source, desired);
    hide Apply, Enabled, Start;
    StopsRun(source, run, Start(source, desired), steps);
    StopsRun(source, run, After(source, run, Start(source, desired), steps), later);
  }

  // ---- what was read -------------------------------------------------------------------------

  function GivenBy(s: Step): seq<Item> {
    if s.FinishLoad? && s.load.Batch? then s.load.items else []
  }

  /** What the loads of a run gave, in order. */
  function Given(steps: seq<Step>): seq<Item> {
    if steps == [] then [] else GivenBy(steps[0]) + Given(steps[1..])
  }

  /** The step finds the source at its end, the pool not being stopped. */
  predicate AtEnd(p: Pool, s: Step) {
    s.FinishLoad? && s.load == Batch([]) && !p.stop
  }

  lemma StepReads(source: Source, run: Item -> Outcome, p: Pool, s: Step)
    requires Enabled(source, p, s)
    ensures var q := Apply(source, run, p, s);
      q.loaded == p.loaded + GivenBy(s) && (q.ended ==> p.ended || AtEnd(p, s))
  {
    hide Take, EndLoad, EndRun, Fail, Turn;
    match s
    case TakeItem(id) => TakeKeepsRead(p, id);
    case FinishLoad(id, load) => LoadReads(p, id, load);
    case FinishRun(id) => RunKeepsRead(p, id, run(p.workers[id].item));
    case ReportError(id) => FailKeepsRead(p, id, p.workers[id].error);
    case ManagerTurn(limit) => TurnKeepsRead(source, p, limit);
    case _ =>
  }

  lemma TakeKeepsRead(p: Pool, id: nat)
    ensures Take(p, id).loaded == p.loaded && Take(p, id).ended == p.ended
  {
  }

  lemma LoadReads(p: Pool, id: nat, load: Load)
    ensures var q := EndLoad(p, id, load);
      q.loaded == p.loaded + GivenBy(FinishLoad(id, load)) && (q.ended ==> p.ended || AtEnd(p, FinishLoad(id, load)))
  {
  }

  lemma RunKeepsRead(p: Pool, id: nat, outcome: Outcome)
    requires id in p.workers && p.workers[id].Running?
    ensures EndRun(p, id, outcome).loaded == p.loaded && EndRun(p, id, outcome).ended == p.ended
  {
  }

  lemma FailKeepsRead(p: Pool, id: nat, error: int)
    ensures Fail(p, id, error).loaded == p.loaded && Fail(p, id, error).ended == p.ended
  {
  }

  lemma TurnKeepsRead(source: Source, p: Pool, limit: nat)
    ensures Turn(source, p, limit).loaded == p.loaded && Turn(source, p, limit).ended == p.ended
  {
    var r := p.(desired := limit);
    SpawnLoads(r, Max(0, Min(Needed(source, r), Max(1, |r.workers|))));
  }

  /** Some load of the run found the source at its end while the pool was not stopped. */
  ghost predicate FindsEnd(source: Source, run: Item -> Outcome, p: Pool, steps: seq<Step>)
    requires Possible(source, run, p, steps)
    decreases |steps|
  {
    steps != [] &&
    (AtEnd(p, steps[0]) || FindsEnd(source, run, Apply(source, run, p, steps[0]), steps[1..]))
  }

  lemma {:induction false} RunReads(source: Source, run: Item -> Outcome, p: Pool, steps: seq<Step>)
    requires Possible(source, run, p, steps)
    ensures var q := After(source, run, p, steps);
      q.loaded == p.loaded + Given(steps) && (q.ended ==> p.ended || FindsEnd(source, run, p, steps))
    decreases |steps|
  {
    hide Apply, Enabled, GivenBy, AtEnd;
    if steps != [] {
      StepReads(source, run, p, steps[0]);
      RunReads(source, run, Apply(source, run, p, steps[0]), steps[1..]);
      assert p.loaded + GivenBy(steps[0]) + Given(steps[1..]) == p.loaded + Given(steps);
    }
  }

  /** An error-free return rests on all that the source gave, every batch in its place, and on its end. */
  lemma ReturnReadsAll(source: Source, run: Item -> Outcome, desired: nat, steps: seq<Step>)
    requires Possible(source, run, Start(source, desired), steps)
    requires var p := After(source, run, Start(source, desired), steps); p.returned && p.firstError.None?
    ensures var p := After(source, run, Start(source, desired), steps);
      && p.loaded == Given(steps) && FindsEnd(source, run, Start(source, desired), steps)
      && (forall i | 0 <= i < |p.loaded| :: i in p.results)
      && SequentialResults(run, Given(steps), Ordered(p.results, |p.loaded|))
  {
    NormalReturn(source, run, desired, steps);
    StartLoads(source, desired);
    hide Apply, Enabled, Start, Possible, Given, FindsEnd, After;
    RunReads(source, run, Start(source, desired), steps);
  }

  lemma StartLoads(source: Source, desired: nat)
    ensures Start(source, desired).loaded == [] && !Start(source, desired).ended
  {
    var empty := Pool(desired, false, false, [], false, 0, 0, map[], map[], None, false, [], false);
    var known := KnownCount(source);
    var burst := Min(desired, INITIAL_WORKER_BURST);
    SpawnLoads(empty, if known.Some? then Min(burst, known.value) else burst);
  }
}
