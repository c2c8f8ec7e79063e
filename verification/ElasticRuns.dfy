/**
 Whole runs of the elastic pool: what a normal return holds, where each item is meanwhile, when the manager
 replaces its workers, and what a stuck pool is.
 */
module ElasticRuns {
  import opened Prelude
  import opened ElasticPool

  // ---- runs ----------------------------------------------------------------------------------

  ghost predicate Possible(source: Source, run: Item -> Outcome, p: Pool, steps: seq<Step>)
    decreases |steps|
  {
    steps == [] || (Enabled(source, p, steps[0]) && Possible(source, run, Apply(source, run, p, steps[0]), steps[1..]))
  }

  ghost function After(source: Source, run: Item -> Outcome, p: Pool, steps: seq<Step>): Pool
    requires Possible(source, run, p, steps)
    decreases |steps|
  {
    if steps == [] then p else After(source, run, Apply(source, run, p, steps[0]), steps[1..])
  }

  lemma {:induction false} RunOk(source: Source, run: Item -> Outcome, p: Pool, steps: seq<Step>)
    requires Inv(source, run, p) && Possible(source, run, p, steps)
    ensures Inv(source, run, After(source, run, p, steps))
    decreases |steps|
  {
    hide Inv, Apply;
    if steps != [] {
      StepOk(source, run, p, steps[0]);
      RunOk(source, run, Apply(source, run, p, steps[0]), steps[1..]);
    }
  }

  /** Running the items one after another, when none fails. */
  ghost predicate SequentialResults(run: Item -> Outcome, items: seq<Item>, values: seq<int>) {
    |values| == |items| && forall i | 0 <= i < |items| :: run(items[i]) == Ok(values[i])
  }

  /** `[results[index] for index in sorted(results)]`, when the indices are those below `count`. */
  function Ordered(results: map<nat, int>, count: nat): (values: seq<int>)
    requires forall i | 0 <= i < count :: i in results
    ensures |values| == count && forall i | 0 <= i < count :: values[i] == results[i]
  {
    seq(count, i requires 0 <= i < count => results[i])
  }

  /** An error-free return: everything the source gave was handed out exactly once and in order, and the
      results are the sequential map; a list was consumed whole. */
  lemma NormalReturn(source: Source, run: Item -> Outcome, desired: nat, steps: seq<Step>)
    requires Possible(source, run, Start(source, desired), steps)
    requires var p := After(source, run, Start(source, desired), steps); p.returned && p.firstError.None?
    ensures var p := After(source, run, Start(source, desired), steps);
      && p.buffer == [] && p.nextItem == |p.loaded| && p.ended
      && (forall j :: j in p.results <==> 0 <= j < |p.loaded|)
      && SequentialResults(run, p.loaded, Ordered(p.results, |p.loaded|))
      && (source.Listed? ==> p.loaded == source.items)
  {
    StartOk(source, run, desired);
    RunOk(source, run, Start(source, desired), steps);
    var p := After(source, run, Start(source, desired), steps);
    hide After, Start;
    EndComplete(source, run, p);
  }

  /** With the source exhausted, no worker left and no error, everything has been run. */
  lemma EndComplete(source: Source, run: Item -> Outcome, p: Pool)
    requires Inv(source, run, p) && p.exhausted && p.workers == map[] && p.firstError.None?
    ensures p.buffer == [] && p.nextItem == |p.loaded| && p.ended
    ensures forall j :: j in p.results <==> 0 <= j < |p.loaded|
    ensures SequentialResults(run, p.loaded, Ordered(p.results, |p.loaded|))
    ensures source.Listed? ==> p.loaded == source.items
  {
    forall j | 0 <= j < p.nextItem ensures j in p.results {
      assert Accounted(p.workers, p.results, p.firstError.Some?, j);
    }
  }

  /** Index `j` is in the buffer, at its place. */
  ghost predicate Waits(p: Pool, j: nat) {
    && p.nextItem <= j < |p.loaded| && |p.buffer| == |p.loaded| - p.nextItem
    && p.buffer[j - p.nextItem] == p.loaded[j]
    && j !in p.results && forall id :: !Runs(p.workers, id, j)
  }

  /** Index `j` has the value the sequential map has, and no worker runs it. */
  ghost predicate Ended(run: Item -> Outcome, p: Pool, j: nat) {
    && j < |p.loaded| && j in p.results && run(p.loaded[j]) == Ok(p.results[j])
    && forall id :: !Runs(p.workers, id, j)
  }

  /** Exactly one worker runs index `j`. */
  ghost predicate RunsOnce(p: Pool, j: nat) {
    j !in p.results && exists id :: Runs(p.workers, id, j) && forall other :: Runs(p.workers, other, j) ==> other == id
  }

  /** At any moment, a handed-out index is in one place only, and an item not handed out is in the buffer. */
  lemma HandedOutOnce(source: Source, run: Item -> Outcome, desired: nat, steps: seq<Step>, j: nat)
    requires Possible(source, run, Start(source, desired), steps)
    requires j < |After(source, run, Start(source, desired), steps).loaded|
    ensures var p := After(source, run, Start(source, desired), steps);
      && (j >= p.nextItem ==> Waits(p, j))
      && (j < p.nextItem && p.firstError.None? && (forall id :: !Errs(p.workers, id)) ==>
            Ended(run, p, j) || RunsOnce(p, j))
  {
    hide Waits, Ended, RunsOnce, Errs;
    StartOk(source, run, desired);
    RunOk(source, run, Start(source, desired), steps);
    var p := After(source, run, Start(source, desired), steps);
    hide After, Start, Possible;
    InOnePlace(source, run, p, j);
  }

  lemma InOnePlace(source: Source, run: Item -> Outcome, p: Pool, j: nat)
    requires Inv(source, run, p) && j < |p.loaded|
    ensures j >= p.nextItem ==> Waits(p, j)
    ensures j < p.nextItem && p.firstError.None? && (forall id :: !Errs(p.workers, id)) ==>
      Ended(run, p, j) || RunsOnce(p, j)
  {
    hide LoaderOk;
    if j < p.nextItem {
      hide BufferOk;
      assert Accounted(p.workers, p.results, p.firstError.Some?, j);
    }
  }

  /** Exhaustion is only ever declared with nothing buffered and nobody loading. */
  lemma ExhaustedMeansEmpty(source: Source, run: Item -> Outcome, desired: nat, steps: seq<Step>)
    requires Possible(source, run, Start(source, desired), steps)
    ensures var p := After(source, run, Start(source, desired), steps);
      p.exhausted ==> p.buffer == [] && (forall id :: !Loads(p.workers, id)) && (p.firstError.None? ==> p.ended)
  {
    StartOk(source, run, desired);
    RunOk(source, run, Start(source, desired), steps);
  }

  // ---- progress ------------------------------------------------------------------------------

  /** With no workers left, no error and an unexhausted source, the manager's next turn starts a worker
      exactly when the source is lazy or some listed item has not been claimed. */
  lemma ReplacementExact(source: Source, p: Pool, limit: nat)
    requires p.workers == map[] && p.firstError.None? && !p.exhausted && limit >= 1
    ensures Turn(source, p, limit).workers != map[] <==> source.Lazy? || p.nextItem < |source.items|
  {
    var q := p.(desired := limit);
    SpawnOk(q, Max(0, Min(Needed(source, q), Max(1, |q.workers|))));
    assert |Turn(source, p, limit).workers| == Max(0, Min(Needed(source, q), 1));
  }

  /** A turn at `limit` starts as many workers as there are, at least one, within the limit and, for a list, within
      the items nobody has claimed. */
  lemma TurnStarts(source: Source, p: Pool, limit: nat)
    requires FlagsOk(p) && p.firstError.None? && !p.exhausted
    ensures var room := if source.Listed? then Min(limit - |p.workers|, |source.items| - p.nextItem)
                        else limit - |p.workers|;
      && |Turn(source, p, limit).workers| == |p.workers| + Max(0, Min(room, Max(1, |p.workers|)))
      && Turn(source, p, limit).desired == limit
  {
    var q := p.(desired := limit);
    SpawnOk(q, Max(0, Min(Needed(source, q), Max(1, |q.workers|))));
  }

  /** A run starts with the limit's number of workers, at most eight and, for a list, at most one an item. */
  lemma StartsWith(source: Source, desired: nat)
    ensures var most := Min(desired, 8);
      |Start(source, desired).workers| == if source.Listed? then Min(most, |source.items|) else most
  {
    var empty := Pool(desired, false, false, [], false, 0, 0, map[], map[], None, false, [], false);
    var known := KnownCount(source);
    var burst := Min(desired, INITIAL_WORKER_BURST);
    SpawnOk(empty, if known.Some? then Min(burst, known.value) else burst);
  }

  /** The manager's turns, with nothing else in between. */
  function Turns(source: Source, p: Pool, limit: nat, turns: nat): Pool {
    if turns == 0 then p else Turn(source, Turns(source, p, limit, turns - 1), limit)
  }

  function Doubled(n: nat, times: nat): nat {
    if times == 0 then n else 2 * Doubled(n, times - 1)
  }

  /** While a lazy source lasts and nobody leaves, the workers double with every turn until the limit. */
  lemma {:induction false} GrowsGeometrically(source: Source, p: Pool, limit: nat, turns: nat)
    requires source.Lazy? && 1 <= |p.workers| <= limit && FlagsOk(p) && p.firstError.None? && !p.exhausted
    ensures var q := Turns(source, p, limit, turns);
      && |q.workers| == Min(limit, Doubled(|p.workers|, turns))
      && FlagsOk(q) && q.firstError.None? && !q.exhausted
  {
    if turns > 0 {
      hide Turn, FlagsOk;
      GrowsGeometrically(source, p, limit, turns - 1);
      DoubledPositive(|p.workers|, turns - 1);
      TurnDoubles(source, Turns(source, p, limit, turns - 1), limit);
    }
  }

  lemma TurnDoubles(source: Source, p: Pool, limit: nat)
    requires source.Lazy? && 1 <= |p.workers| <= limit && FlagsOk(p) && p.firstError.None? && !p.exhausted
    ensures var q := Turn(source, p, limit);
      |q.workers| == Min(limit, 2 * |p.workers|) && FlagsOk(q) && q.firstError.None? && !q.exhausted
  {
    var r := p.(desired := limit);
    SpawnOk(r, Max(0, Min(Needed(source, r), Max(1, |r.workers|))));
  }

  lemma {:induction false} DoubledPositive(n: nat, times: nat)
    requires n >= 1
    ensures Doubled(n, times) >= 1
  {
    if times > 0 { DoubledPositive(n, times - 1); }
  }

  /** Every listed item is claimed and done, no worker is left, and the end of the list was never seen. */
  predicate Stuck(source: Source, p: Pool) {
    && source.Listed? && p.workers == map[] && p.firstError.None? && !p.exhausted && !p.returned
    && p.nextItem == |source.items|
  }

  /** Such a pool never returns: the manager's turns are all that can still happen, and they change
      nothing. */
  lemma {:induction false} StuckForever(source: Source, run: Item -> Outcome, p: Pool, steps: seq<Step>)
    requires Stuck(source, p) && Possible(source, run, p, steps)
    ensures Stuck(source, After(source, run, p, steps))
    decreases |steps|
  {
    if steps != [] {
      assert steps[0].ManagerTurn?;
      ReplacementExact(source, p, steps[0].limit);
      StuckForever(source, run, Apply(source, run, p, steps[0]), steps[1..]);
    }
  }

  // ---- limits that never decrease ------------------------------------------------------------

  ghost predicate Steady(source: Source, run: Item -> Outcome, p: Pool, steps: seq<Step>)
    requires Possible(source, run, p, steps)
    decreases |steps|
  {
    steps == [] || ((steps[0].ManagerTurn? ==> steps[0].limit >= p.desired)
                    && Steady(source, run, Apply(source, run, p, steps[0]), steps[1..]))
  }

  /** There are never more workers than the limit; they leave only at the end of the source or on an
      error; and until then there is one. */
  ghost predicate Staffed(p: Pool) {
    && |p.workers| <= p.desired
    && (forall id | id in p.workers && p.workers[id] == Leaving :: p.exhausted || p.firstError.Some?)
    && (p.workers == map[] ==> p.exhausted || p.firstError.Some?)
  }

  lemma StaffedStep(source: Source, run: Item -> Outcome, p: Pool, s: Step)
    requires Inv(source, run, p) && Staffed(p) && Enabled(source, p, s) && (s.ManagerTurn? ==> s.limit >= p.desired)
    ensures Staffed(Apply(source, run, p, s))
  {
    hide WorkersOk, LoaderOk, AccountsOk, ValuesOk, Turn, Take, EndLoad, EndRun;
    match s
    case ManagerTurn(limit) => StaffedTurn(source, p, limit);
    case TakeItem(id) => StaffedTake(p, id);
    case FinishLoad(id, load) => StaffedLoad(p, id, load);
    case FinishRun(id) => StaffedEnd(p, id, run(p.workers[id].item));
    case _ =>
  }

  lemma StaffedTurn(source: Source, p: Pool, limit: nat)
    requires Staffed(p) && FlagsOk(p) && limit >= p.desired
    ensures Staffed(Turn(source, p, limit))
  {
    var q := p.(desired := limit);
    SpawnOk(q, Max(0, Min(Needed(source, q), Max(1, |q.workers|))));
  }

  lemma StaffedTake(p: Pool, id: nat)
    requires Staffed(p) && FlagsOk(p) && id in p.workers
    ensures Staffed(Take(p, id))
  {
    assert p.workers[id := Taking] != map[];
  }

  lemma StaffedLoad(p: Pool, id: nat, load: Load)
    requires Staffed(p) && id in p.workers
    ensures Staffed(EndLoad(p, id, load))
  {
  }

  lemma StaffedEnd(p: Pool, id: nat, outcome: Outcome)
    requires Staffed(p) && id in p.workers && p.workers[id].Running?
    ensures Staffed(EndRun(p, id, outcome))
  {
  }

  lemma {:induction false} StaffedRun(source: Source, run: Item -> Outcome, p: Pool, steps: seq<Step>)
    requires Inv(source, run, p) && Staffed(p) && Possible(source, run, p, steps) && Steady(source, run, p, steps)
    ensures Staffed(After(source, run, p, steps))
    decreases |steps|
  {
    hide Inv, Staffed, Apply, Enabled;
    if steps != [] {
      StepOk(source, run, p, steps[0]);
      StaffedStep(source, run, p, steps[0]);
      StaffedRun(source, run, Apply(source, run, p, steps[0]), steps[1..]);
    }
  }

  /** With limits that never decrease, a pool over a nonempty list never gets stuck, never has more
      workers than its limit, and has one until the list has ended or an error has occurred. */
  lemma SteadyNeverStuck(source: Source, run: Item -> Outcome, desired: nat, steps: seq<Step>)
    requires desired >= 1 && (source.Listed? ==> source.items != [])
    requires Possible(source, run, Start(source, desired), steps) && Steady(source, run, Start(source, desired), steps)
    ensures var p := After(source, run, Start(source, desired), steps);
      !Stuck(source, p) && Staffed(p)
  {
    var empty := Pool(desired, false, false, [], false, 0, 0, map[], map[], None, false, [], false);
    var known := KnownCount(source);
    var burst := Min(desired, INITIAL_WORKER_BURST);
    SpawnOk(empty, if known.Some? then Min(burst, known.value) else burst);
    assert |Start(source, desired).workers| >= 1;
    StartOk(source, run, desired);
    StaffedRun(source, run, Start(source, desired), steps);
  }
}
