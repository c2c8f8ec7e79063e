/**
 The adaptive run as the source writes it: shared variables updated in critical sections by workers,
 by the loading worker and by the manager.  Each section is proved equal to its step, so a run of the
 object is a run of the pool.
 */
module ElasticRunner {
  import opened Prelude
  import opened ElasticPool
  import opened ElasticRuns
  import opened ElasticErrors

  /** A critical section, or the manager's reading of a limit that raises or is out of range. */
  datatype Event = Do(step: Step) | LimitRaises(error: int)

  datatype Ending = Values(values: seq<int>) | Raised(error: int) | LimitRaised(error: int) | StillRunning

  class AdaptiveRun {
    const source: Source
    const run: Item -> Outcome

    /** The variables the workers and the manager share. */
    var p: Pool

    constructor (source: Source, run: Item -> Outcome, desired: nat)
      ensures this.source == source && this.run == run && p == Start(source, desired)
    {
      this.source, this.run := source, run;
      p := Pool(desired, false, false, [], false, 0, 0, map[], map[], None, false, [], false);
      new;
      var initial := Min(desired, INITIAL_WORKER_BURST);
      if source.Listed? { initial := Min(initial, |source.items|); }
      SpawnWorkers(initial);
      p := Check(p);
    }

    method SpawnWorkers(count: nat)
      modifies this
      ensures p == Spawn(old(p), count)
    {
      for k := 0 to count
        invariant Spawn(p, count - k) == Spawn(old(p), count)
      {
        p := p.(workers := p.workers[p.nextWorker := Gate], nextWorker := p.nextWorker + 1);
      }
    }

    /** Surplus workers retire only between jobs. */
    method PassGate(id: nat)
      requires Enabled(source, p, CheckGate(id))
      modifies this
      ensures p == Apply(source, run, old(p), CheckGate(id))
    {
      if p.stop {
        SetPhase(id, Leaving);
      } else if |p.workers| > p.desired {
        SetPhase(id, Leaving);
      } else {
        SetPhase(id, Taking);
      }
    }

    method SetPhase(id: nat, phase: Phase)
      modifies this
      ensures p == Move(old(p), id, phase)
    {
      p := p.(workers := p.workers[id := phase]);
    }

    /** The first critical section of `take_item`. */
    method TakeNext(id: nat)
      requires Enabled(source, p, TakeItem(id))
      modifies this
      ensures p == Take(old(p), id)
    {
      if p.stop {
        SetPhase(id, Leaving);
      } else if p.buffer != [] {
        var index, item := p.nextItem, p.buffer[0];
        p := p.(buffer := p.buffer[1..], nextItem := p.nextItem + 1);
        SetPhase(id, Running(index, item));
      } else if p.exhausted {
        SetPhase(id, Leaving);
      } else if !p.loading {
        p := p.(loading := true);
        SetPhase(id, Loading);
      }
    }

    /** The second critical section of `take_item`, after the load. */
    method StoreLoad(id: nat, load: Load)
      requires Enabled(source, p, FinishLoad(id, load))
      modifies this
      ensures p == EndLoad(old(p), id, load)
    {
      p := p.(loading := false);
      match load
      case LoadError(error) =>
        SetPhase(id, Erroring(error));
      case Batch(items) =>
        if items != [] {
          p := p.(buffer := p.buffer + items, loaded := p.loaded + items);
          SetPhase(id, Taking);
        } else {
          p := p.(exhausted := true, ended := !p.stop);
          SetPhase(id, Leaving);
        }
    }

    method RunJob(id: nat)
      requires Enabled(source, p, FinishRun(id))
      modifies this
      ensures p == Apply(source, run, old(p), FinishRun(id))
    {
      var index := p.workers[id].index;
      var outcome := run(p.workers[id].item);
      if outcome.Err? {
        SetPhase(id, Erroring(outcome.error));
      } else {
        p := p.(results := p.results[index := outcome.value]);
        SetPhase(id, Gate);
      }
    }

    method RecordError(id: nat)
      requires Enabled(source, p, ReportError(id))
      modifies this
      ensures p == Apply(source, run, old(p), ReportError(id))
    {
      var error := p.workers[id].error;
      if p.firstError.None? { p := p.(firstError := Some(error)); }
      p := p.(stop := true);
      SetPhase(id, Leaving);
    }

    /** One turn of the manager's loop, up to its next look at the loop condition. */
    method Manage(limit: nat)
      requires Enabled(source, p, ManagerTurn(limit))
      modifies this
      ensures p == Turn(source, old(p), limit)
    {
      if p.firstError.Some? {
        p := p.(stop := true);
      } else {
        p := p.(desired := limit);
        if !p.exhausted && |p.workers| < p.desired {
          var needed := p.desired - |p.workers|;
          if source.Listed? {
            needed := Min(needed, Max(0, |source.items| - p.nextItem));
          }
          var growth := Max(1, |p.workers|);
          SpawnWorkers(Max(0, Min(needed, growth)));
        }
      }
      p := Check(p);
    }

    method Perform(s: Step)
      requires Enabled(source, p, s)
      modifies this
      ensures p == Apply(source, run, old(p), s)
    {
      hide Take, EndLoad, Turn, EndRun, Fail;
      match s
      case CheckGate(id) => PassGate(id);
      case TakeItem(id) => TakeNext(id);
      case FinishLoad(id, load) => StoreLoad(id, load);
      case FinishRun(id) => RunJob(id);
      case ReportError(id) => RecordError(id);
      case Leave(id) => p := p.(workers := p.workers - {id});
      case ManagerTurn(limit) => Manage(limit);
    }

    /** Performs the steps of a schedule that are possible when their turn comes.  A normal return gives
        the sequential results of everything the source gave; a failed job surfaces as the first error; either
        way no worker is left.  A limit that cannot be read ends the manager at once and leaves the workers to
        themselves. */
    method RunAdaptive(schedule: seq<Event>) returns (ending: Ending)
      requires Inv(source, run, p)
      modifies this
      ensures Inv(source, run, p)
      ensures var played := Play(source, run, old(p), schedule);
        && p == played.pool
        && (ending.LimitRaised? <==> played.limitError.Some?)
        && (ending.LimitRaised? ==> played.limitError == Some(ending.error))
      ensures ending.StillRunning? ==> !p.returned
      ensures ending.Values? || ending.Raised? ==> p.workers == map[]
      ensures ending.Values? ==> p.ended && p.firstError.None? && SequentialResults(run, p.loaded, ending.values)
      ensures ending.Values? && source.Listed? ==> SequentialResults(run, source.items, ending.values)
      ensures ending.Raised? ==> p.firstError == Some(ending.error)
      ensures ending.Raised? && Clean(old(p)) ==>
        || FromJob(run, p, ending.error)
        || (source.Lazy? && exists id :: Do(FinishLoad(id, LoadError(ending.error))) in schedule)
      ensures ending.LimitRaised? ==> !p.returned && p.firstError.None? && !p.stop
    {
      for k := 0 to |schedule|
        invariant Inv(source, run, p)
        invariant Play(source, run, p, schedule[k..]) == Play(source, run, old(p), schedule)
      {
        hide Inv, Apply;
        assert schedule[k..][0] == schedule[k] && schedule[k..][1..] == schedule[k + 1..];
        match schedule[k]
        case Do(step) =>
          if Enabled(source, p, step) {
            StepOk(source, run, p, step);
            Perform(step);
          }
        case LimitRaises(error) =>
          if !p.returned && p.firstError.None? {
            NotStopped(source, run, p);
            return LimitRaised(error);
          }
      }
      if !p.returned { return StillRunning; }
      if p.firstError.Some? {
        RaisedFrom(source, run, old(p), schedule);
        return Raised(p.firstError.value);
      }
      var values := [];
      for j := 0 to p.nextItem
        invariant |values| == j && forall i | 0 <= i < j :: i in p.results && values[i] == p.results[i]
      {
        assert Accounted(p.workers, p.results, p.firstError.Some?, j);
        values := values + [p.results[j]];
      }
      return Values(values);
    }
  }

  lemma NotStopped(source: Source, run: Item -> Outcome, p: Pool)
    requires Inv(source, run, p) && p.firstError.None?
    ensures !p.stop
  {
  }

  /** An error recorded in the course of a schedule was raised by a job without a result, or by a load. */
  lemma RaisedFrom(source: Source, run: Item -> Outcome, p: Pool, schedule: seq<Event>)
    requires Inv(source, run, p) && Play(source, run, p, schedule).pool.firstError.Some?
    ensures var q := Play(source, run, p, schedule).pool;
      Clean(p) ==>
        || FromJob(run, q, q.firstError.value)
        || (source.Lazy? && exists id :: Do(FinishLoad(id, LoadError(q.firstError.value))) in schedule)
  {
    var steps := PlayIsRun(source, run, p, schedule);
    hide Play, Inv;
    if Clean(p) {
      var e := After(source, run, p, steps).firstError.value;
      ErrorFrom(source, run, p, steps, e);
      if FromLoad(steps, e) {
        var id :| FinishLoad(id, LoadError(e)) in steps;
        assert Do(FinishLoad(id, LoadError(e))) in schedule;
      }
    }
  }

  // ---- what a schedule makes of the pool -----------------------------------------------------

  /** The pool a schedule leads to, and the error of the limit that ended the manager, if one did. */
  datatype Played = Played(pool: Pool, limitError: Option<int>)

  ghost function Play(source: Source, run: Item -> Outcome, p: Pool, schedule: seq<Event>): Played
    decreases |schedule|
  {
    if schedule == [] then Played(p, None)
    else
      match schedule[0]
      case Do(step) =>
        Play(source, run, if Enabled(source, p, step) then Apply(source, run, p, step) else p, schedule[1..])
      case LimitRaises(error) =>
        if !p.returned && p.firstError.None? then Played(p, Some(error)) else Play(source, run, p, schedule[1..])
  }

  /** What a schedule leads to is what a run of the pool leads to, and the run reads only limits of the schedule. */
  lemma {:induction false} PlayIsRun(source: Source, run: Item -> Outcome, p: Pool, schedule: seq<Event>)
      returns (steps: seq<Step>)
    ensures Possible(source, run, p, steps) && After(source, run, p, steps) == Play(source, run, p, schedule).pool
    ensures forall s | s in steps :: Do(s) in schedule
    decreases |schedule|
  {
    if schedule == [] {
      steps := [];
    } else if schedule[0].Do? && Enabled(source, p, schedule[0].step) {
      var s := schedule[0].step;
      var rest := PlayIsRun(source, run, Apply(source, run, p, s), schedule[1..]);
      steps := [s] + rest;
      assert steps[1..] == rest;
    } else if schedule[0].LimitRaises? && !p.returned && p.firstError.None? {
      steps := [];
    } else {
      steps := PlayIsRun(source, run, p, schedule[1..]);
    }
  }

  /** And a run of the pool is what a schedule of its steps leads to: none is left out. */
  lemma {:induction false} RunIsPlay(source: Source, run: Item -> Outcome, p: Pool, steps: seq<Step>)
    requires Possible(source, run, p, steps)
    ensures Play(source, run, p, seq(|steps|, k requires 0 <= k < |steps| => Do(steps[k])))
         == Played(After(source, run, p, steps), None)
    decreases |steps|
  {
    var schedule := seq(|steps|, k requires 0 <= k < |steps| => Do(steps[k]));
    if steps != [] {
      var rest := steps[1..];
      assert schedule[1..] == seq(|rest|, k requires 0 <= k < |rest| => Do(rest[k]));
      RunIsPlay(source, run, Apply(source, run, p, steps[0]), rest);
    }
  }

  /** Workers are left behind when the limit cannot be read at the first turn. */
  method LeaveWorkers(run: Item -> Outcome) returns (pool: AdaptiveRun, ending: Ending)
    ensures ending == LimitRaised(7) && fresh(pool) && pool.source == Listed([10, 20])
    ensures pool.p == Start(pool.source, 2) && pool.p.workers.Keys == {0, 1} && !pool.p.stop
  {
    pool := new AdaptiveRun(Listed([10, 20]), run, 2);
    StartOk(pool.source, run, 2);
    TwoAtGate(pool.source);
    ending := pool.RunAdaptive([LimitRaises(7)]);
  }

  lemma TwoAtGate(source: Source)
    requires source == Listed([10, 20])
    ensures Start(source, 2).workers == map[0 := Gate, 1 := Gate]
    ensures !Start(source, 2).returned && Start(source, 2).firstError.None? && !Start(source, 2).stop
  {
    var empty := Pool(2, false, false, [], false, 0, 0, map[], map[], None, false, [], false);
    var one := empty.(workers := map[0 := Gate], nextWorker := 1);
    assert Spawn(empty, 2) == Spawn(one, 1);
    assert Spawn(one, 1) == Spawn(one.(workers := map[0 := Gate, 1 := Gate], nextWorker := 2), 0);
  }
}
