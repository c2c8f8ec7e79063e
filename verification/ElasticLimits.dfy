/**
 The limits that let a list run on threads hang.  A run reads the limit at its start and at every turn of its
 manager; over a list some run never returns, or leaves items to nobody when its manager goes, if and only if
 the limits it may read decrease somewhere.
 */
module ElasticLimits {
  import opened Prelude
  import opened ElasticPool
  import opened ElasticRuns
  import opened ElasticProgress

  // ---- the limits a run reads ----------------------------------------------------------------

  predicate ValidLimits(limits: seq<nat>) {
    limits != [] && forall k | 0 <= k < |limits| :: 1 <= limits[k] <= MAX_RUNTIME_THREADS
  }

  /** The manager reads these limits, in this order, each any number of times; the first is the present one. */
  ghost predicate Follows(limits: seq<nat>, steps: seq<Step>)
    decreases |steps|
  {
    || steps == []
    || (!steps[0].ManagerTurn? && Follows(limits, steps[1..]))
    || (steps[0].ManagerTurn?
        && exists k :: 0 <= k < |limits| && limits[k] == steps[0].limit && Follows(limits[k..], steps[1..]))
  }

  /** Some limit is followed by a lower one. */
  predicate Decreases(limits: seq<nat>) {
    exists k | 0 <= k < |limits| - 1 :: DropsAt(limits, k)
  }

  predicate DropsAt(limits: seq<nat>, k: nat)
    requires k + 1 < |limits|
  {
    limits[k] > limits[k + 1]
  }

  lemma {:induction false} Rising(limits: seq<nat>, k: nat)
    requires !Decreases(limits) && k < |limits|
    ensures limits[0] <= limits[k] && !Decreases(limits[k..])
  {
    if k > 0 {
      Rising(limits, k - 1);
      assert !DropsAt(limits, k - 1);
      forall j | 0 <= j < |limits[k..]| - 1 ensures !DropsAt(limits[k..], j) {
        assert !DropsAt(limits, k + j);
      }
    } else {
      assert limits[0..] == limits;
    }
  }

  /** Limits that do not decrease make a steady run. */
  lemma {:induction false} FollowsSteady(source: Source, run: Item -> Outcome, p: Pool, limits: seq<nat>,
      steps: seq<Step>)
    requires limits != [] && !Decreases(limits) && p.desired <= limits[0]
    requires Possible(source, run, p, steps) && Follows(limits, steps)
    ensures Steady(source, run, p, steps)
    decreases |steps|
  {
    if steps != [] {
      var rest := limits;
      if steps[0].ManagerTurn? {
        var k :| 0 <= k < |limits| && limits[k] == steps[0].limit && Follows(limits[k..], steps[1..]);
        Rising(limits, k);
        rest := limits[k..];
      }
      StepDesires(source, run, p, steps[0]);
      hide Apply, Enabled, Decreases;
      FollowsSteady(source, run, Apply(source, run, p, steps[0]), rest, steps[1..]);
    }
  }

  lemma StepDesires(source: Source, run: Item -> Outcome, p: Pool, s: Step)
    requires Enabled(source, p, s)
    ensures var q := Apply(source, run, p, s); q.desired == p.desired || (s.ManagerTurn? && q.desired == s.limit)
  {
    hide Turn;
    if s.ManagerTurn? { TurnDesires(source, p, s.limit); }
  }

  lemma TurnDesires(source: Source, p: Pool, limit: nat)
    ensures Turn(source, p, limit).desired in {p.desired, limit}
  {
    var r := p.(desired := limit);
    SpawnFrame(r, Max(0, Min(Needed(source, r), Max(1, |r.workers|))));
  }

  /** A run that reads the limit at `i` up to some moment and the next one from then on. */
  lemma {:induction false} FollowsTwo(limits: seq<nat>, i: nat, steps: seq<Step>, m: nat)
    requires i + 1 < |limits| && m <= |steps|
    requires ReadsOnly(steps[..m], limits[i]) && ReadsOnly(steps[m..], limits[i + 1])
    ensures Follows(limits, steps)
    decreases |steps|
  {
    if steps != [] {
      if m > 0 {
        assert steps[..m][0] == steps[0] && steps[..m][1..] == steps[1..][..m - 1] && steps[m..] == steps[1..][m - 1..];
        ReadsRest(steps[..m], limits[i]);
        FollowsTwo(limits[i..], 0, steps[1..], m - 1);
        if !steps[0].ManagerTurn? { FollowsTwo(limits, i, steps[1..], m - 1); }
      } else {
        assert steps[0..] == steps;
        ReadsRest(steps, limits[i + 1]);
        FollowsOne(limits, i + 1, steps);
      }
    }
  }

  lemma {:induction false} FollowsOne(limits: seq<nat>, i: nat, steps: seq<Step>)
    requires i < |limits| && ReadsOnly(steps, limits[i])
    ensures Follows(limits, steps)
    decreases |steps|
  {
    if steps != [] {
      ReadsRest(steps, limits[i]);
      FollowsOne(limits[i..], 0, steps[1..]);
      FollowsOne(limits, i, steps[1..]);
    }
  }

  predicate ReadsOnly(steps: seq<Step>, limit: nat) {
    forall k | 0 <= k < |steps| && steps[k].ManagerTurn? :: steps[k].limit == limit
  }

  predicate ReadsNothing(steps: seq<Step>) {
    forall k | 0 <= k < |steps| :: !steps[k].ManagerTurn?
  }

  lemma ReadsRest(steps: seq<Step>, limit: nat)
    requires steps != [] && ReadsOnly(steps, limit)
    ensures ReadsOnly(steps[1..], limit) && (steps[0].ManagerTurn? ==> steps[0].limit == limit)
  {
  }

  // ---- building runs -------------------------------------------------------------------------

  ghost predicate Path(source: Source, run: Item -> Outcome, p: Pool, steps: seq<Step>, q: Pool) {
    Possible(source, run, p, steps) && After(source, run, p, steps) == q
  }

  lemma First(source: Source, run: Item -> Outcome, p: Pool, s: Step, steps: seq<Step>, q: Pool)
    requires Enabled(source, p, s) && Path(source, run, Apply(source, run, p, s), steps, q)
    ensures Path(source, run, p, [s] + steps, q)
  {
    assert ([s] + steps)[1..] == steps;
  }

  lemma Here(source: Source, run: Item -> Outcome, p: Pool)
    ensures Path(source, run, p, [], p)
  {
  }

  lemma {:induction false} Join(source: Source, run: Item -> Outcome, p: Pool, before: seq<Step>, q: Pool,
      after: seq<Step>, r: Pool)
    requires Path(source, run, p, before, q) && Path(source, run, q, after, r)
    ensures Path(source, run, p, before + after, r)
    decreases |before|
  {
    if before == [] {
      assert before + after == after;
    } else {
      assert (before + after)[1..] == before[1..] + after;
      hide Apply, Enabled;
      Join(source, run, Apply(source, run, p, before[0]), before[1..], q, after, r);
    }
  }

  // ---- the pools along the way ---------------------------------------------------------------

  /** `n` workers, the first `k` leaving and the others at the gate. */
  function Crew(n: nat, k: nat): Workers {
    map id: nat | id < n :: Standing(id, k)
  }

  function Standing(id: nat, k: nat): Phase { if id < k then Leaving else Gate }

  /** Those that have not left yet. */
  function Leavers(n: nat, k: nat): Workers {
    map id: nat | k <= id < n :: Standing(id, n)
  }

  lemma {:induction false} CrewSize(n: nat, k: nat)
    ensures |Crew(n, k)| == n
  {
    if n > 0 {
      CrewSize(n - 1, k);
      assert Crew(n, k) == Crew(n - 1, k)[n - 1 := Standing(n - 1, k)];
    }
  }

  predicate AllSucceed(run: Item -> Outcome, items: seq<Item>) {
    forall k | 0 <= k < |items| :: run(items[k]).Ok?
  }

  function Results(run: Item -> Outcome, items: seq<Item>, done: nat): map<nat, int>
    requires done <= |items| && AllSucceed(run, items[..done])
  {
    map k: nat | k < done :: assert items[..done][k] == items[k]; run(items[k]).value
  }

  /** After `done` items, with nobody running one. */
  function Between(run: Item -> Outcome, items: seq<Item>, done: nat, desired: nat, n: nat, workers: Workers): Pool
    requires done <= |items| && AllSucceed(run, items[..done])
  {
    Pool(desired, false, false, [], false, done, n, workers, Results(run, items, done), None, false, items[..done],
      false)
  }

  // ---- growing to the limit ------------------------------------------------------------------

  lemma {:induction false} SpawnCrew(p: Pool, n: nat, count: nat)
    requires p.workers == Crew(n, 0) && p.nextWorker == n
    ensures Spawn(p, count) == p.(workers := Crew(n + count, 0), nextWorker := n + count)
    decreases count
  {
    if count > 0 {
      assert Crew(n, 0)[n := Gate] == Crew(n + 1, 0);
      SpawnCrew(p.(workers := p.workers[n := Gate], nextWorker := n + 1), n + 1, count - 1);
    }
  }

  lemma StartCrew(source: Source, run: Item -> Outcome, desired: nat) returns (n: nat)
    requires source.Listed? && source.items != [] && desired >= 1
    ensures 1 <= n <= desired
    ensures Start(source, desired) == Between(run, source.items, 0, desired, n, Crew(n, 0))
  {
    n := Min(Min(desired, INITIAL_WORKER_BURST), |source.items|);
    var empty := Pool(desired, false, false, [], false, 0, 0, map[], map[], None, false, [], false);
    assert Crew(0, 0) == map[] && Results(run, source.items, 0) == map[] && source.items[..0] == [];
    SpawnCrew(empty, 0, n);
    CrewSize(n, 0);
  }

  lemma TurnGrows(source: Source, run: Item -> Outcome, desired: nat, n: nat, limit: nat) returns (more: nat)
    requires source.Listed? && source.items != [] && 1 <= n < limit
    ensures n < more <= limit
    ensures Turn(source, Between(run, source.items, 0, desired, n, Crew(n, 0)), limit)
         == Between(run, source.items, 0, limit, more, Crew(more, 0))
  {
    var p := Between(run, source.items, 0, limit, n, Crew(n, 0));
    CrewSize(n, 0);
    var count := Max(0, Min(Needed(source, p), Max(1, |p.workers|)));
    more := n + count;
    SpawnCrew(p, n, count);
    CrewSize(more, 0);
  }

  lemma {:induction false} Grow(source: Source, run: Item -> Outcome, desired: nat, n: nat, limit: nat)
      returns (steps: seq<Step>)
    requires source.Listed? && source.items != [] && 1 <= n <= desired <= limit <= MAX_RUNTIME_THREADS
    ensures Path(source, run, Between(run, source.items, 0, desired, n, Crew(n, 0)), steps,
      Between(run, source.items, 0, limit, limit, Crew(limit, 0)))
    ensures ReadsOnly(steps, limit)
    decreases limit - n
  {
    if n == limit {
      steps := [];
    } else {
      var more := TurnGrows(source, run, desired, n, limit);
      var rest := Grow(source, run, limit, more, limit);
      First(source, run, Between(run, source.items, 0, desired, n, Crew(n, 0)), ManagerTurn(limit), rest,
        Between(run, source.items, 0, limit, limit, Crew(limit, 0)));
      steps := [ManagerTurn(limit)] + rest;
    }
  }

  // ---- one worker runs the items -------------------------------------------------------------

  /** A worker at the gate loads the next listed item and claims it. */
  lemma Claim(source: Source, run: Item -> Outcome, p: Pool, id: nat, q: Pool) returns (steps: seq<Step>)
    requires source.Listed? && id in p.workers && p.workers[id] == Gate
    requires !p.stop && !p.exhausted && !p.loading && p.buffer == []
    requires |p.workers| <= p.desired && p.nextItem == |p.loaded| < |source.items|
    requires var item := source.items[|p.loaded|];
      q == p.(workers := p.workers[id := Running(p.nextItem, item)], nextItem := p.nextItem + 1,
        loaded := p.loaded + [item])
    ensures Path(source, run, p, steps, q) && ReadsNothing(steps)
  {
    hide Path;
    var item := source.items[|p.loaded|];
    var taking := Move(p, id, Taking);
    var loading := Move(p.(loading := true), id, Loading);
    assert loading.workers == taking.workers[id := Loading];
    var loaded := Move(p.(buffer := [item], loaded := p.loaded + [item]), id, Taking);
    assert loaded.workers == loading.workers[id := Taking];
    assert q.workers == loaded.workers[id := Running(p.nextItem, item)] && loaded.buffer[1..] == [];
    Here(source, run, q);
    steps := [TakeItem(id)] + [];
    First(source, run, loaded, TakeItem(id), [], q);
    assert loading.buffer + [item] == [item] && Apply(source, run, loading, FinishLoad(id, Batch([item]))) == loaded;
    First(source, run, loading, FinishLoad(id, Batch([item])), steps, q);
    steps := [FinishLoad(id, Batch([item]))] + steps;
    First(source, run, taking, TakeItem(id), steps, q);
    steps := [TakeItem(id)] + steps;
    First(source, run, p, CheckGate(id), steps, q);
    steps := [CheckGate(id)] + steps;
  }

  lemma RunItem(source: Source, run: Item -> Outcome, done: nat, n: nat) returns (steps: seq<Step>)
    requires source.Listed? && done < |source.items| && AllSucceed(run, source.items[..done + 1]) && n >= 1
    ensures AllSucceed(run, source.items[..done])
    ensures Path(source, run, Between(run, source.items, done, n, n, Crew(n, 0)), steps,
      Between(run, source.items, done + 1, n, n, Crew(n, 0)))
    ensures ReadsNothing(steps)
  {
    hide Path, Take, EndLoad;
    OneMore(run, source.items, done);
    CrewSize(n, 0);
    var item := source.items[done];
    var p := Between(run, source.items, done, n, n, Crew(n, 0));
    var q := Between(run, source.items, done + 1, n, n, Crew(n, 0));
    var running := p.(workers := p.workers[0 := Running(done, item)], nextItem := done + 1, loaded := q.loaded);
    assert running.workers[0 := Gate] == q.workers;
    hide Results, Crew;
    assert Apply(source, run, running, FinishRun(0)).workers == q.workers;
    assert Apply(source, run, running, FinishRun(0)).results == q.results;
    assert Apply(source, run, running, FinishRun(0)) == q;
    steps := Claim(source, run, p, 0, running);
    Here(source, run, q);
    First(source, run, running, FinishRun(0), [], q);
    Join(source, run, p, steps, running, [FinishRun(0)] + [], q);
    steps := steps + ([FinishRun(0)] + []);
  }

  lemma OneMore(run: Item -> Outcome, items: seq<Item>, done: nat)
    requires done < |items| && AllSucceed(run, items[..done + 1])
    ensures run(items[done]).Ok? && AllSucceed(run, items[..done]) && items[..done + 1] == items[..done] + [items[done]]
    ensures Results(run, items, done + 1) == Results(run, items, done)[done := run(items[done]).value]
  {
    assert items[..done + 1][done] == items[done];
    forall k | 0 <= k < done ensures items[..done][k] == items[..done + 1][k] {
    }
  }

  /** One worker runs the first `done` items, one after another. */
  lemma {:induction false} RunItems(source: Source, run: Item -> Outcome, done: nat, n: nat) returns (steps: seq<Step>)
    requires source.Listed? && done <= |source.items| && AllSucceed(run, source.items[..done]) && n >= 1
    ensures Path(source, run, Between(run, source.items, 0, n, n, Crew(n, 0)), steps,
      Between(run, source.items, done, n, n, Crew(n, 0)))
    ensures ReadsNothing(steps)
  {
    if done == 0 {
      steps := [];
    } else {
      OneMore(run, source.items, done - 1);
      var before := RunItems(source, run, done - 1, n);
      var last := RunItem(source, run, done - 1, n);
      Join(source, run, Between(run, source.items, 0, n, n, Crew(n, 0)), before,
        Between(run, source.items, done - 1, n, n, Crew(n, 0)), last,
        Between(run, source.items, done, n, n, Crew(n, 0)));
      steps := before + last;
    }
  }

  // ---- everybody retires ---------------------------------------------------------------------

  /** With more workers than the limit, those at the gate leave it one after another. */
  lemma {:induction false} Retire(source: Source, run: Item -> Outcome, p: Pool, n: nat, k: nat)
      returns (steps: seq<Step>)
    requires k <= n && p.desired < n && p.workers == Crew(n, k)
    ensures Path(source, run, p, steps, p.(workers := Crew(n, n))) && ReadsNothing(steps)
    decreases n - k
  {
    if k == n {
      steps := [];
    } else {
      CrewSize(n, k);
      assert Crew(n, k)[k := Leaving] == Crew(n, k + 1);
      var q := p.(workers := Crew(n, k + 1));
      var rest := Retire(source, run, q, n, k + 1);
      First(source, run, p, CheckGate(k), rest, p.(workers := Crew(n, n)));
      steps := [CheckGate(k)] + rest;
    }
  }

  lemma {:induction false} LeaveAll(source: Source, run: Item -> Outcome, p: Pool, n: nat, k: nat)
      returns (steps: seq<Step>)
    requires k <= n && p.workers == Leavers(n, k)
    ensures Path(source, run, p, steps, p.(workers := map[])) && ReadsNothing(steps)
    decreases n - k
  {
    if k == n {
      assert Leavers(n, n) == map[];
      steps := [];
    } else {
      assert Leavers(n, k) - {k} == Leavers(n, k + 1);
      var q := p.(workers := Leavers(n, k + 1));
      var rest := LeaveAll(source, run, q, n, k + 1);
      First(source, run, p, Leave(k), rest, p.(workers := map[]));
      steps := [Leave(k)] + rest;
    }
  }

  /** The manager reads a lower limit, and all workers retire. */
  lemma Dissolve(source: Source, run: Item -> Outcome, done: nat, n: nat, limit: nat) returns (steps: seq<Step>)
    requires source.Listed? && done <= |source.items| && AllSucceed(run, source.items[..done])
    requires 1 <= limit < n <= MAX_RUNTIME_THREADS
    ensures Path(source, run, Between(run, source.items, done, n, n, Crew(n, 0)), steps,
      Between(run, source.items, done, limit, n, map[]))
    ensures ReadsOnly(steps, limit)
  {
    var p := Between(run, source.items, done, n, n, Crew(n, 0));
    var lowered := p.(desired := limit);
    CrewSize(n, 0);
    assert Turn(source, p, limit) == lowered;
    hide Path;
    var retiring := Retire(source, run, lowered, n, 0);
    assert Crew(n, n) == Leavers(n, 0);
    var leaving := LeaveAll(source, run, lowered.(workers := Crew(n, n)), n, 0);
    var gone := lowered.(workers := map[]);
    Join(source, run, lowered, retiring, lowered.(workers := Crew(n, n)), leaving, gone);
    First(source, run, p, ManagerTurn(limit), retiring + leaving, gone);
    steps := [ManagerTurn(limit)] + (retiring + leaving);
  }

  // ---- exactly when --------------------------------------------------------------------------

  /** Where the limits drop for the first time. */
  lemma {:induction false} FirstDrop(limits: seq<nat>, k: nat) returns (i: nat)
    requires k + 1 < |limits| && DropsAt(limits, k)
    ensures i + 1 < |limits| && DropsAt(limits, i) && limits[0] <= limits[i]
  {
    if exists j | 0 <= j < k :: DropsAt(limits, j) {
      var j :| 0 <= j < k && DropsAt(limits, j);
      i := FirstDrop(limits, j);
    } else {
      i := k;
      var rising := limits[..k + 1];
      forall j | 0 <= j < |rising| - 1 ensures !DropsAt(rising, j) {
        assert !DropsAt(limits, j);
      }
      Rising(rising, k);
    }
  }

  /** Limits that drop let all workers retire after any number of successful items. */
  lemma Deserted(source: Source, run: Item -> Outcome, limits: seq<nat>, done: nat) returns (steps: seq<Step>, p: Pool)
    requires source.Listed? && source.items != [] && ValidLimits(limits) && Decreases(limits)
    requires done <= |source.items| && AllSucceed(run, source.items[..done])
    ensures Path(source, run, Start(source, limits[0]), steps, p) && Follows(limits, steps)
    ensures p.workers == map[] && p.firstError.None? && !p.exhausted && !p.returned && p.nextItem == done
  {
    var k :| 0 <= k < |limits| - 1 && DropsAt(limits, k);
    var i := FirstDrop(limits, k);
    var top, low := limits[i], limits[i + 1];
    hide Path;
    var n := StartCrew(source, run, limits[0]);
    var growing := Grow(source, run, limits[0], n, top);
    var start, grown := Start(source, limits[0]), Between(run, source.items, 0, top, top, Crew(top, 0));
    var working := RunItems(source, run, done, top);
    var worked := Between(run, source.items, done, top, top, Crew(top, 0));
    Join(source, run, start, growing, grown, working, worked);
    var retiring := Dissolve(source, run, done, top, low);
    p := Between(run, source.items, done, low, top, map[]);
    Join(source, run, start, growing + working, worked, retiring, p);
    steps := growing + working + retiring;
    var m := |growing + working|;
    assert steps[..m] == growing + working && steps[m..] == retiring;
    FollowsTwo(limits, i, steps, m);
  }

  /** Some run over the list that reads these limits is stuck: it will never return. */
  ghost predicate CanHang(source: Source, run: Item -> Outcome, limits: seq<nat>)
    requires limits != []
  {
    exists steps :: Hangs(source, run, limits, steps)
  }

  ghost predicate Hangs(source: Source, run: Item -> Outcome, limits: seq<nat>, steps: seq<Step>)
    requires limits != []
  {
    && Possible(source, run, Start(source, limits[0]), steps) && Follows(limits, steps)
    && Stuck(source, After(source, run, Start(source, limits[0]), steps))
  }

  /** A list can hang exactly when all its items succeed and the limits decrease somewhere. */
  lemma HangsExactly(source: Source, run: Item -> Outcome, limits: seq<nat>)
    requires source.Listed? && source.items != [] && ValidLimits(limits)
    ensures CanHang(source, run, limits) <==> AllSucceed(run, source.items) && Decreases(limits)
  {
    hide AllSucceed, Decreases;
    if AllSucceed(run, source.items) && Decreases(limits) {
      assert source.items[..|source.items|] == source.items;
      var steps, p := Deserted(source, run, limits, |source.items|);
      assert Hangs(source, run, limits, steps);
    }
    if CanHang(source, run, limits) {
      var steps :| Hangs(source, run, limits, steps);
      HangsOnlyIf(source, run, limits, steps);
    }
  }

  lemma HangsOnlyIf(source: Source, run: Item -> Outcome, limits: seq<nat>, steps: seq<Step>)
    requires source.Listed? && source.items != [] && ValidLimits(limits) && Hangs(source, run, limits, steps)
    ensures AllSucceed(run, source.items) && Decreases(limits)
  {
    var start := Start(source, limits[0]);
    StartOk(source, run, limits[0]);
    StartStaffed(source, limits[0]);
    RunOk(source, run, start, steps);
    StuckSucceeded(source, run, After(source, run, start, steps));
    if !Decreases(limits) {
      hide Decreases, Start, Inv;
      FollowsSteady(source, run, start, limits, steps);
      SteadyNeverStuck(source, run, limits[0], steps);
    }
  }

  lemma StuckSucceeded(source: Source, run: Item -> Outcome, p: Pool)
    requires Inv(source, run, p) && Stuck(source, p)
    ensures AllSucceed(run, source.items)
  {
    forall j | 0 <= j < |source.items| ensures run(source.items[j]).Ok? {
      assert Accounted(p.workers, p.results, p.firstError.Some?, j);
      assert p.loaded[j] == source.items[j];
    }
  }

  /** Some run that reads these limits comes to a point where without its manager, though nobody failed, some
      item is never run: no worker is left to run it. */
  ghost predicate CanLose(source: Source, run: Item -> Outcome, limits: seq<nat>)
    requires source.Listed? && limits != []
  {
    exists steps :: Loses(source, run, limits, steps)
  }

  ghost predicate Loses(source: Source, run: Item -> Outcome, limits: seq<nat>, steps: seq<Step>)
    requires source.Listed? && limits != []
  {
    && Possible(source, run, Start(source, limits[0]), steps) && Follows(limits, steps)
    && var p := After(source, run, Start(source, limits[0]), steps);
       p.workers == map[] && p.firstError.None? && !p.returned && p.nextItem < |source.items|
  }

  /** A run whose manager is lost can leave items of its list to nobody exactly when the limits read before
      decreased somewhere. */
  lemma LosesExactly(source: Source, run: Item -> Outcome, limits: seq<nat>)
    requires source.Listed? && source.items != [] && ValidLimits(limits)
    ensures CanLose(source, run, limits) <==> Decreases(limits)
  {
    hide Decreases;
    if Decreases(limits) {
      var steps, p := Deserted(source, run, limits, 0);
      assert Loses(source, run, limits, steps);
    }
    if CanLose(source, run, limits) {
      var steps :| Loses(source, run, limits, steps);
      if !Decreases(limits) { SteadyLosesNothing(source, run, limits, steps); }
    }
  }

  lemma SteadyLosesNothing(source: Source, run: Item -> Outcome, limits: seq<nat>, steps: seq<Step>)
    requires source.Listed? && source.items != [] && ValidLimits(limits) && !Decreases(limits)
    ensures !Loses(source, run, limits, steps)
  {
    if Loses(source, run, limits, steps) {
      StartStaffed(source, limits[0]);
      var start := Start(source, limits[0]);
      FollowsSteady(source, run, start, limits, steps);
      assert forall s | Enabled(source, After(source, run, start, steps), s) :: s.ManagerTurn?;
      hide Decreases, Start;
      OrphansDrain(source, run, limits[0], steps);
    }
  }

  // ---- at concrete lists ---------------------------------------------------------------------

  /** A list of one item hangs when the limit goes from two to one. */
  lemma OneItemHangs(item: Item, run: Item -> Outcome)
    requires run(item).Ok?
    ensures CanHang(Listed([item]), run, [2, 1])
  {
    assert DropsAt([2, 1], 0);
    HangsExactly(Listed([item]), run, [2, 1]);
  }

  /** Two items are both lost when the limit goes from two to one before either is claimed and the manager then
      fails: no worker is left, and nothing but the manager could start one. */
  lemma BothLost(run: Item -> Outcome) returns (steps: seq<Step>, p: Pool)
    ensures Path(Listed([10, 20]), run, Start(Listed([10, 20]), 2), steps, p) && Follows([2, 1], steps)
    ensures p.nextItem == 0 && p.firstError.None? && forall s | Enabled(Listed([10, 20]), p, s) :: s.ManagerTurn?
  {
    assert DropsAt([2, 1], 0);
    steps, p := Deserted(Listed([10, 20]), run, [2, 1], 0);
  }
}
