/**
 Every step of the pump and of the producer threads keeps the invariant, so every interleaving of
 them does; and what the invariant says about a whole run.
 */
module FiberSteps {
  import opened Prelude
  import opened FiberModel
  import opened FiberInvariant

  // ---- one step of each kind -----------------------------------------------------------------

  lemma SettleOk(w: World, p: Pump, i: nat)
    requires Inv(w, p, [], Some(i)) && p.fibers[i].pending.None?
    ensures Inv(w, Settle(w, p, i), [], None)
  {
    hide PlacesOk, LedgerOk, FailuresOk, RegistryOk, SignalsOk, ParkOnFuture, ParkAsleep;
    match Current(w, p.fibers[i])
    case AwaitFuture(fut, deadline, guarded) => AwaitOk(w, p, i, fut, deadline, guarded);
    case Sleep(until, guarded) => AsleepOk(w, p, i, until, guarded);
    case Return(v) => ReturnOk(w, p, i, v);
    case Raise(e) => RaiseOk(w, p, i, e);
    case Unsupported => RaiseOk(w, p, i, UnsupportedYield);
  }

  lemma ReturnOk(w: World, p: Pump, i: nat, v: int)
    requires Inv(w, p, [], Some(i)) && p.fibers[i].pending.None? && Current(w, p.fibers[i]) == Return(v)
    ensures Inv(w, Finish(p, i).(results := p.results[i := v]), [], None)
  {
    hide LedgerOk, FailuresOk, RegistryOk;
    PlacesRun(w, p.fibers, p.ready, p.sleepers, p.waiters, i, p.fibers[i].(done := true));
    LedgerFinish(w, p.fibers, p.results, p.firstError, p.active, i, p.results[i := v], p.firstError);
    FailuresReturn(w, p.fibers, p.results, p.failed, p.firstError, i, v);
  }

  lemma RaiseOk(w: World, p: Pump, i: nat, e: Err)
    requires Inv(w, p, [], Some(i)) && p.fibers[i].pending.None? && OwnError(Current(w, p.fibers[i])) == Some(e)
    ensures Inv(w, Finish(p, i).(firstError := FirstError(p, e), failed := p.failed + [i]), [], None)
  {
    hide LedgerOk, FailuresOk, RegistryOk;
    PlacesRun(w, p.fibers, p.ready, p.sleepers, p.waiters, i, p.fibers[i].(done := true));
    LedgerFinish(w, p.fibers, p.results, p.firstError, p.active, i, p.results, FirstError(p, e));
    FailuresRaise(w, p.fibers, p.results, p.failed, p.firstError, i, e);
  }

  lemma AsleepOk(w: World, p: Pump, i: nat, until: int, guarded: bool)
    requires Inv(w, p, [], Some(i)) && p.fibers[i].pending.None?
    requires Current(w, p.fibers[i]) == Sleep(until, guarded)
    ensures Inv(w, ParkAsleep(p, i, until, guarded), [], None)
  {
    hide PlacesOk, LedgerOk, FailuresOk, RegistryOk, SignalsOk;
    var x := p.fibers[i].(token := p.fibers[i].token + 1);
    PlacesRun(w, p.fibers, p.ready, p.sleepers, p.waiters, i, x);
    PlacesAsleep(w, p.fibers[i := x], p.ready, p.sleepers, p.waiters, i,
      Sleeper(until, p.serial + 1, i, x.token, guarded));
    LedgerPark(w, p.fibers, p.results, p.firstError, p.active, i, x);
    FailuresMove(w, p.fibers, p.results, p.failed, p.firstError, i, x);
  }

  lemma AwaitOk(w: World, p: Pump, i: nat, fut: Fut, deadline: Option<int>, guarded: bool)
    requires Inv(w, p, [], Some(i)) && p.fibers[i].pending.None?
    requires Current(w, p.fibers[i]) == AwaitFuture(fut, deadline, guarded)
    ensures Inv(w, ParkOnFuture(p, i, fut, deadline, guarded), [], None)
  {
    hide PlacesOk, LedgerOk, FailuresOk, RegistryOk;
    var x := p.fibers[i].(token := p.fibers[i].token + 1, pending := Some(fut));
    PlacesAwait(w, p.fibers, p.ready, p.sleepers, p.waiters, i, x, Waiter(i, x.token, fut, deadline, guarded, true));
    LedgerPark(w, p.fibers, p.results, p.firstError, p.active, i, x);
    FailuresMove(w, p.fibers, p.results, p.failed, p.firstError, i, x);
    RegistryAwait(p, i, fut, deadline, guarded);
  }

  lemma LaunchOk(w: World, p: Pump, item: Item)
    requires Inv(w, p, [], None)
    ensures Inv(w, Launch(w, p, item), [], None)
  {
    hide PlacesOk, LedgerOk, FailuresOk, RegistryOk, SignalsOk, Settle;
    PlacesNew(w, p.fibers, p.ready, p.sleepers, p.waiters, Fiber(item, [], 0, false, None));
    LedgerNew(w, p.fibers, p.results, p.firstError, p.active, item);
    FailuresNew(w, p.fibers, p.results, p.failed, p.firstError, Fiber(item, [], 0, false, None));
    SettleOk(w, NewState(p, item), |p.fibers|);
  }

  lemma ResumeNextOk(w: World, p: Pump)
    requires Inv(w, p, [], None) && p.ready != []
    ensures Inv(w, ResumeNext(w, p), [], None)
  {
    hide LedgerOk, FailuresOk, RegistryOk, SignalsOk, Settle, Census, WaitersOk, SleepersOk;
    var i, r := p.ready[0].fiber, p.ready[0].resume;
    var q := Hand(p.(ready := p.ready[1..]), i, r);
    PlacesUnqueue(w, p.fibers, p.ready, p.sleepers, p.waiters);
    PlacesRun(w, p.fibers, q.ready, p.sleepers, p.waiters, i, q.fibers[i]);
    LedgerHand(w, p.fibers, p.results, p.firstError, p.active, i, q.fibers[i], r);
    FailuresMove(w, p.fibers, p.results, p.failed, p.firstError, i, q.fibers[i]);
    SettleOk(w, q, i);
  }

  /** What waking waiter `k` with `r` presupposes: if it is live, its fiber may be handed `r`. */
  ghost predicate MayWake(w: World, p: Pump, k: nat, r: Resume) {
    k < |p.waiters| && (Live(p.fibers, p.waiters[k]) ==> Legit(w, Current(w, p.fibers[p.waiters[k].fiber]), r))
  }

  lemma WakePlacesLedger(w: World, p: Pump, k: nat, r: Resume)
    requires PlacesOk(w, p.fibers, p.ready, p.sleepers, p.waiters, None)
    requires LedgerOk(w, p.fibers, p.results, p.firstError, p.active, None)
    requires FailuresOk(w, p.fibers, p.results, p.failed, p.firstError)
    requires MayWake(w, p, k, r)
    ensures var q := Wake(p, k, r);
      && PlacesOk(w, q.fibers, q.ready, q.sleepers, q.waiters, None)
      && LedgerOk(w, q.fibers, q.results, q.firstError, q.active, None)
      && FailuresOk(w, q.fibers, q.results, q.failed, q.firstError)
  {
    assert WaiterOk(w, p.fibers, p.waiters[k]);
    if Live(p.fibers, p.waiters[k]) {
      hide LedgerOk, FailuresOk;
      var i := p.waiters[k].fiber;
      PlacesWake(w, p.fibers, p.ready, p.sleepers, p.waiters, k, r);
      LedgerPark(w, p.fibers, p.results, p.firstError, p.active, i, p.fibers[i].(pending := None)) by {
        assert IsWait(Current(w, p.fibers[i]));
      }
      FailuresMove(w, p.fibers, p.results, p.failed, p.firstError, i, p.fibers[i].(pending := None));
    } else {
      assert p.waiters[k := p.waiters[k].(active := false)] == p.waiters;
    }
  }

  lemma WakeOk(w: World, p: Pump, k: nat, r: Resume, hand: seq<nat>)
    requires Inv(w, p, hand, None) && MayWake(w, p, k, r)
    ensures Inv(w, Wake(p, k, r), hand, None)
    ensures hand != [] && hand[0] == k ==> Inv(w, Wake(p, k, r), hand[1..], None)
  {
    hide PlacesOk, LedgerOk, FailuresOk, RegistryOk, SignalsOk;
    WakePlacesLedger(w, p, k, r);
    RegistryRetire(p.waiters, p.futureWaiters, p.deadlines, hand, k);
  }

  /** Every waiter in a future's list waits for that future, so its outcome is a legitimate resume. */
  lemma OutcomeLegit(w: World, p: Pump, k: nat, hand: seq<nat>)
    requires Inv(w, p, hand, None) && k < |p.waiters|
    ensures MayWake(w, p, k, w.outcome(p.waiters[k].fut))
  {
    assert WaiterOk(w, p.fibers, p.waiters[k]);
  }

  lemma WakeKeepsFutures(p: Pump, k: nat, r: Resume)
    requires k < |p.waiters|
    ensures |Wake(p, k, r).waiters| == |p.waiters|
    ensures forall j | 0 <= j < |p.waiters| :: Wake(p, k, r).waiters[j].fut == p.waiters[j].fut
  {
  }

  lemma {:induction false} WakeAllOk(w: World, p: Pump, list: seq<nat>, f: Fut)
    requires Inv(w, p, list, None)
    requires Known(p, list) && forall j | 0 <= j < |list| :: p.waiters[list[j]].fut == f
    ensures Inv(w, WakeAll(p, list, w.outcome(f)), [], None)
    decreases |list|
  {
    hide Inv, Wake, MayWake;
    if list != [] {
      OutcomeLegit(w, p, list[0], list);
      WakeOk(w, p, list[0], w.outcome(f), list);
      WakeKeepsFutures(p, list[0], w.outcome(f));
      WakeAllOk(w, Wake(p, list[0], w.outcome(f)), list[1..], f);
    }
  }

  lemma DeliverOk(w: World, p: Pump)
    requires Inv(w, p, [], None) && ListsKnown(p) && p.completed != []
    ensures Inv(w, Deliver(w, p), [], None)
  {
    var f := p.completed[0];
    assert p.completed == [f] + p.completed[1..];
    var q := p.(completed := p.completed[1..]);
    if f in p.futureWaiters {
      q := q.(futureWaiters := p.futureWaiters - {f});
      assert Inv(w, q, p.futureWaiters[f], None) by {
        hide PlacesOk, LedgerOk;
        RegistryTake(p.waiters, p.futureWaiters, p.deadlines, f);
        hide RegistryOk;
      }
      assert Known(q, p.futureWaiters[f]);
      hide PlacesOk, LedgerOk, FailuresOk, SignalsOk;
      WakeAllOk(w, q, p.futureWaiters[f], f);
    }
  }

  lemma SleeperLegit(w: World, p: Pump, r: Resume)
    requires PlacesOk(w, p.fibers, p.ready, p.sleepers, p.waiters, None) && p.sleepers != []
    requires var verdict := Verdict(w, p, p.sleepers[0].guarded);
      r == if verdict.Some? then Failure(verdict.value) else Plain
    ensures var e := p.sleepers[0]; SleeperCurrent(p.fibers, e) && Legit(w, Current(w, p.fibers[e.fiber]), r)
  {
    assert SleepersOk(w, p.fibers, p.sleepers);
    hide PlacesOk, SleepersSorted;
  }

  lemma FireSleeperOk(w: World, p: Pump)
    requires Inv(w, p, [], None) && p.sleepers != []
    ensures Inv(w, FireSleeper(w, p), [], None)
    ensures |FireSleeper(w, p).sleepers| == |p.sleepers| - 1
  {
    hide LedgerOk, FailuresOk, RegistryOk, SignalsOk;
    var e := p.sleepers[0];
    var r := if Verdict(w, p, e.guarded).Some? then Failure(Verdict(w, p, e.guarded).value) else Plain;
    SleeperLegit(w, p, r);
    hide PlacesOk, Legit, Current;
    PlacesRouse(w, p.fibers, p.ready, p.sleepers, p.waiters, 0, r);
    assert p.sleepers[..0] + p.sleepers[0 + 1..] == p.sleepers[1..];
  }

  lemma PollSleeperOk(w: World, p: Pump, j: nat)
    requires Inv(w, p, [], None) && j < |p.sleepers|
    ensures Inv(w, PollSleeper(w, p, j), [], None)
  {
    var e := p.sleepers[j];
    assert SleepersOk(w, p.fibers, p.sleepers);
    assert SleeperCurrent(p.fibers, e);
    var verdict := Verdict(w, p, e.guarded);
    if verdict.Some? {
      assert Legit(w, Current(w, p.fibers[e.fiber]), Failure(verdict.value));
      hide PlacesOk, LedgerOk, FailuresOk, RegistryOk, SignalsOk;
      PlacesRouse(w, p.fibers, p.ready, p.sleepers, p.waiters, j, Failure(verdict.value));
    }
  }

  lemma FireDeadlineOk(w: World, p: Pump)
    requires Inv(w, p, [], None) && DeadlinesKnown(p) && p.deadlines != []
    ensures Inv(w, FireDeadline(p), [], None)
  {
    hide PlacesOk, LedgerOk, FailuresOk, RegistryOk, SignalsOk, MayWake, Wake;
    var k, q := p.deadlines[0].waiter, p.(deadlines := p.deadlines[1..]);
    MayTimeOut(w, p);
    RegistryPopDeadline(p.waiters, p.futureWaiters, p.deadlines);
    if p.waiters[k].active {
      WakePlacesLedger(w, q, k, Failure(FutureTimeout));
      WakeFrame(q, k, Failure(FutureTimeout));
    } else {
      assert p.waiters[k := p.waiters[k].(active := false)] == p.waiters;
    }
  }

  lemma WakeFrame(p: Pump, k: nat, r: Resume)
    requires k < |p.waiters|
    ensures var q := Wake(p, k, r);
      q == p.(fibers := q.fibers, ready := q.ready, waiters := p.waiters[k := p.waiters[k].(active := false)])
  {
  }

  lemma MayTimeOut(w: World, p: Pump)
    requires Inv(w, p, [], None) && DeadlinesKnown(p) && p.deadlines != []
    ensures MayWake(w, p.(deadlines := p.deadlines[1..]), p.deadlines[0].waiter, Failure(FutureTimeout))
  {
    assert WaiterOk(w, p.fibers, p.waiters[p.deadlines[0].waiter]);
    hide LedgerOk, FailuresOk, SignalsOk;
  }

  lemma PollWaiterOk(w: World, p: Pump, k: nat)
    requires Inv(w, p, [], None) && k < |p.waiters|
    ensures Inv(w, PollWaiter(w, p, k), [], None)
  {
    assert WaiterOk(w, p.fibers, p.waiters[k]);
    if p.waiters[k].active {
      var verdict := Verdict(w, p, p.waiters[k].guarded);
      var q := AfterCheck(p, p.waiters[k].guarded);
      assert Inv(w, q, [], None);
      if verdict.Some? {
        assert MayWake(w, q, k, Failure(verdict.value));
        hide PlacesOk, LedgerOk, FailuresOk, RegistryOk, SignalsOk;
        WakeOk(w, q, k, Failure(verdict.value), []);
      }
    }
  }

  lemma PruneOk(w: World, p: Pump, f: Fut)
    requires Inv(w, p, [], None) && f in p.futureWaiters && Known(p, p.futureWaiters[f])
    ensures Inv(w, Prune(p, f), [], None)
  {
    hide PlacesOk, LedgerOk;
    RegistryPrune(p, f);
    hide RegistryOk;
  }

  lemma ClearRecheckOk(w: World, p: Pump)
    requires Inv(w, p, [], None)
    ensures Inv(w, ClearWake(p), [], None) && Inv(w, Recheck(p), [], None)
  {
    hide PlacesOk, LedgerOk, FailuresOk, RegistryOk;
  }

  /** The shape facts that make the steps applicable. */
  lemma InvShape(w: World, p: Pump)
    requires Inv(w, p, [], None)
    ensures ListsKnown(p) && DeadlinesKnown(p) && ReadyShaped(p)
    ensures forall f | f in p.futureWaiters :: Increasing(p.futureWaiters[f])
  {
  }

  // ---- runs: any interleaving of the pump with the producers ---------------------------------

  /** The atomic steps.  The first three belong to producer threads: a future becomes done, a
      done-callback puts it on the completion queue, and that callback sets the event. */
  datatype Step =
    | FutureDone(f: Fut)
    | CallbackPut(f: Fut)
    | CallbackSet
    | DeliverOne
    | ClearEvent
    | RecheckEvent
    | SleeperDue(now: int)
    | DeadlineDue(now: int)
    | PollOne(k: nat)
    | PruneList(f: Fut)
    | PollSleeperAt(j: nat)
    | ResumeReady
    | Admit(item: Item)

  ghost predicate Enabled(p: Pump, s: Step) {
    match s
    case FutureDone(f) => f !in p.finished
    case CallbackPut(f) => f in p.finished && f in p.callbacks
    case CallbackSet => p.setters > 0
    case DeliverOne => ListsKnown(p) && p.completed != []
    case ClearEvent => true
    case RecheckEvent => p.rechecking
    case SleeperDue(now) => p.sleepers != [] && p.sleepers[0].at <= now
    case DeadlineDue(now) => DeadlinesKnown(p) && p.deadlines != [] && p.deadlines[0].at <= now
    case PollOne(k) => k < |p.waiters|
    case PruneList(f) => f in p.futureWaiters && Known(p, p.futureWaiters[f])
    case PollSleeperAt(j) => j < |p.sleepers|
    case ResumeReady => ReadyShaped(p) && p.ready != []
    case Admit(_) => true
  }

  ghost function Apply(w: World, p: Pump, s: Step): Pump
    requires Enabled(p, s)
  {
    match s
    case FutureDone(f) => p.(finished := p.finished + {f})
    case CallbackPut(f) => p.(callbacks := p.callbacks - multiset{f}, completed := p.completed + [f],
      setters := p.setters + 1)
    case CallbackSet => p.(setters := p.setters - 1, wake := true)
    case DeliverOne => Deliver(w, p)
    case ClearEvent => ClearWake(p)
    case RecheckEvent => Recheck(p)
    case SleeperDue(_) => FireSleeper(w, p)
    case DeadlineDue(_) => FireDeadline(p)
    case PollOne(k) => PollWaiter(w, p, k)
    case PruneList(f) => Prune(p, f)
    case PollSleeperAt(j) => PollSleeper(w, p, j)
    case ResumeReady => ResumeNext(w, p)
    case Admit(item) => Launch(w, p, item)
  }

  lemma StepOk(w: World, p: Pump, s: Step)
    requires Inv(w, p, [], None) && Enabled(p, s)
    ensures Inv(w, Apply(w, p, s), [], None)
  {
    hide PlacesOk, LedgerOk, FailuresOk, RegistryOk;
    match s
    case DeliverOne => DeliverOk(w, p);
    case SleeperDue(_) => FireSleeperOk(w, p);
    case DeadlineDue(_) => FireDeadlineOk(w, p);
    case PollOne(k) => PollWaiterOk(w, p, k);
    case PruneList(f) => PruneOk(w, p, f);
    case PollSleeperAt(j) => PollSleeperOk(w, p, j);
    case ResumeReady => ResumeNextOk(w, p);
    case Admit(item) => LaunchOk(w, p, item);
    case _ =>
  }

  /** `steps` is a run of the pump from `p`. */
  ghost predicate Possible(w: World, p: Pump, steps: seq<Step>)
    decreases |steps|
  {
    steps == [] || (Enabled(p, steps[0]) && Possible(w, Apply(w, p, steps[0]), steps[1..]))
  }

  ghost function After(w: World, p: Pump, steps: seq<Step>): Pump
    requires Possible(w, p, steps)
    decreases |steps|
  {
    if steps == [] then p else After(w, Apply(w, p, steps[0]), steps[1..])
  }

  lemma {:induction false} RunOk(w: World, p: Pump, steps: seq<Step>)
    requires Inv(w, p, [], None) && Possible(w, p, steps)
    ensures Inv(w, After(w, p, steps), [], None)
    decreases |steps|
  {
    if steps != [] {
      hide Inv, Apply;
      StepOk(w, p, steps[0]);
      RunOk(w, Apply(w, p, steps[0]), steps[1..]);
    }
  }

  // ---- what a reader gets from it ------------------------------------------------------------

  /** Fiber `i` is behind waiter `k`: the waiter is active and listed, and it carries the fiber's own
      token and future. */
  ghost predicate Behind(p: Pump, i: nat, k: nat)
    requires i < |p.fibers|
  {
    && k < |p.waiters| && p.waiters[k].active && p.waiters[k].fiber == i
    && p.waiters[k].token == p.fibers[i].token && p.fibers[i].pending == Some(p.waiters[k].fut)
    && Registered(p.futureWaiters, k, p.waiters[k].fut)
  }

  /** Fiber exclusivity: after any run, a finished fiber is nowhere, and an unfinished one is exactly
      once in the ready queue, or exactly once asleep, or behind exactly one live registered waiter. */
  lemma FiberExclusivity(w: World, steps: seq<Step>, i: nat)
    requires Possible(w, EMPTY_PUMP, steps) && i < |After(w, EMPTY_PUMP, steps).fibers|
    ensures var p := After(w, EMPTY_PUMP, steps);
      var queued, asleep := Tally(p.ready, ReadyKey, i), Tally(p.sleepers, SleeperKey, i);
      && (p.fibers[i].done ==> queued == 0 && asleep == 0 && forall k: nat :: !Behind(p, i, k))
      && (!p.fibers[i].done ==>
            || (queued == 1 && asleep == 0 && p.fibers[i].pending.None? && forall k: nat :: !Behind(p, i, k))
            || (queued == 0 && asleep == 1 && p.fibers[i].pending.None? && forall k: nat :: !Behind(p, i, k))
            || (queued == 0 && asleep == 0
                && exists k: nat :: Behind(p, i, k) && forall j: nat :: Behind(p, i, j) ==> j == k))
  {
    EmptyInv(w);
    RunOk(w, EMPTY_PUMP, steps);
    var p := After(w, EMPTY_PUMP, steps);
    assert Places(p.ready, p.sleepers, p.waiters, i) == if p.fibers[i].done then 0 else 1;
    if Tally(p.waiters, WaiterKey, i) == 0 {
      NoActiveWaiter(p, i);
    } else {
      var k := TallyWitness(p.waiters, WaiterKey, i);
      OnlyActiveWaiter(w, p, i, k);
    }
  }

  lemma NoActiveWaiter(p: Pump, i: nat)
    requires i < |p.fibers| && Tally(p.waiters, WaiterKey, i) == 0
    ensures forall k: nat :: !Behind(p, i, k)
  {
    forall k: nat ensures !Behind(p, i, k) {
      if Behind(p, i, k) { TallyPositive(p.waiters, k, WaiterKey, i); }
    }
  }

  lemma OnlyActiveWaiter(w: World, p: Pump, i: nat, k: nat)
    requires i < |p.fibers| && k < |p.waiters| && WaiterOk(w, p.fibers, p.waiters[k])
    requires Registered(p.futureWaiters, k, p.waiters[k].fut)
    requires WaiterKey(p.waiters[k]) == i && Tally(p.waiters, WaiterKey, i) == 1
    ensures Behind(p, i, k) && forall j: nat :: Behind(p, i, j) ==> j == k
  {
    forall j: nat ensures Behind(p, i, j) ==> j == k {
      if Behind(p, i, j) && j < k { TallyTwo(p.waiters, j, k, WaiterKey, i); }
      if Behind(p, i, j) && k < j { TallyTwo(p.waiters, k, j, WaiterKey, i); }
    }
  }

  /** `_active_count` is the number of unfinished fibers, after any run. */
  lemma ActiveCountExact(w: World, steps: seq<Step>)
    requires Possible(w, EMPTY_PUMP, steps)
    ensures var p := After(w, EMPTY_PUMP, steps);
      p.active == Tally(p.fibers, DoneKey, 0) && (p.active == 0 <==> forall i | 0 <= i < |p.fibers| :: p.fibers[i].done)
  {
    EmptyInv(w);
    RunOk(w, EMPTY_PUMP, steps);
    AllDone(After(w, EMPTY_PUMP, steps).fibers);
  }

  lemma AllDone(fibers: seq<Fiber>)
    ensures Tally(fibers, DoneKey, 0) == 0 <==> forall i | 0 <= i < |fibers| :: fibers[i].done
  {
    if Tally(fibers, DoneKey, 0) > 0 {
      var k := TallyWitness(fibers, DoneKey, 0);
    } else {
      forall i | 0 <= i < |fibers| ensures fibers[i].done {
        if !fibers[i].done { TallyPositive(fibers, i, DoneKey, 0); }
      }
    }
  }

  /** No fiber is stranded: when nothing is ready, nothing sleeps and the completion queue is empty,
      each unfinished fiber waits for a future whose done-callback is registered and has not run. */
  lemma NoFiberStranded(w: World, steps: seq<Step>, i: nat)
    requires Possible(w, EMPTY_PUMP, steps) && i < |After(w, EMPTY_PUMP, steps).fibers|
    requires var p := After(w, EMPTY_PUMP, steps);
      !p.fibers[i].done && p.ready == [] && p.sleepers == [] && p.completed == []
    ensures var p := After(w, EMPTY_PUMP, steps); p.fibers[i].pending.Some? && p.fibers[i].pending.value in p.callbacks
  {
    EmptyInv(w);
    RunOk(w, EMPTY_PUMP, steps);
    var p := After(w, EMPTY_PUMP, steps);
    assert Places(p.ready, p.sleepers, p.waiters, i) == 1;
    var k := TallyWitness(p.waiters, WaiterKey, i);
    OnlyActiveWaiter(w, p, i, k);
  }

  /** A fiber's own error is kept.  The fibers on record as failed are the finished ones without a result, and there
      is a first error exactly when there is such a fiber: what the first of them raised, or the error of a value it
      yielded that is not supported. */
  lemma FirstErrorExactly(w: World, steps: seq<Step>, e: Err)
    requires Possible(w, EMPTY_PUMP, steps)
    ensures var p := After(w, EMPTY_PUMP, steps);
      && (forall i: nat :: i in p.failed <==> i < |p.fibers| && p.fibers[i].done && i !in p.results)
      && (p.firstError == Some(e) <==>
            && p.failed != [] && p.failed[0] < |p.fibers|
            && (|| Current(w, p.fibers[p.failed[0]]) == Raise(e)
                || (Current(w, p.fibers[p.failed[0]]) == Unsupported && e == UnsupportedYield)))
  {
    EmptyInv(w);
    RunOk(w, EMPTY_PUMP, steps);
  }

  /** Fiber `i` has ended since, and is the one added to the record. */
  ghost predicate JustFailed(p: Pump, q: Pump, i: nat) {
    && q.failed == p.failed + [i]
    && i < |q.fibers| && q.fibers[i].done && (i < |p.fibers| ==> !p.fibers[i].done)
  }

  /** The record is in the order of the endings: a step adds at most one fiber, at the end, and one that it has just
      ended. */
  lemma EndsInOrder(w: World, p: Pump, s: Step)
    requires Inv(w, p, [], None) && Enabled(p, s)
    ensures var q := Apply(w, p, s); q.failed == p.failed || exists i :: JustFailed(p, q, i)
  {
    if s.ResumeReady? {
      hide Settle;
      var i, r := p.ready[0].fiber, p.ready[0].resume;
      assert !p.fibers[i].done;
      hide Inv;
      SettleFailed(w, Hand(p.(ready := p.ready[1..]), i, r), i);
      assert Apply(w, p, s).failed == p.failed || JustFailed(p, Apply(w, p, s), i);
    } else if s.Admit? {
      hide Settle, Inv;
      SettleFailed(w, NewState(p, s.item), |p.fibers|);
      assert Apply(w, p, s).failed == p.failed || JustFailed(p, Apply(w, p, s), |p.fibers|);
    } else {
      hide Inv, Apply;
      OthersFail(w, p, s);
    }
  }

  lemma SettleFailed(w: World, p: Pump, i: nat)
    requires i < |p.fibers|
    ensures var q := Settle(w, p, i);
      |q.fibers| == |p.fibers| && (q.failed == p.failed || (q.failed == p.failed + [i] && q.fibers[i].done))
  {
    hide ParkOnFuture, ParkAsleep, FirstError;
    match Current(w, p.fibers[i])
    case AwaitFuture(fut, deadline, guarded) => ParkFails(p, i, fut, deadline, guarded);
    case Sleep(until, guarded) => AsleepFails(p, i, until, guarded);
    case _ =>
  }

  lemma ParkFails(p: Pump, i: nat, fut: Fut, deadline: Option<int>, guarded: bool)
    requires i < |p.fibers|
    ensures var q := ParkOnFuture(p, i, fut, deadline, guarded); |q.fibers| == |p.fibers| && q.failed == p.failed
  {
    hide PushDeadline;
  }

  lemma AsleepFails(p: Pump, i: nat, until: int, guarded: bool)
    requires i < |p.fibers|
    ensures var q := ParkAsleep(p, i, until, guarded); |q.fibers| == |p.fibers| && q.failed == p.failed
  {
    hide PushSleeper;
  }

  lemma OthersFail(w: World, p: Pump, s: Step)
    requires Enabled(p, s) && !s.ResumeReady? && !s.Admit?
    ensures Apply(w, p, s).failed == p.failed
  {
    hide Verdict, Live, SleeperCurrent, ActiveOnly;
    if s.DeliverOne? && p.completed[0] in p.futureWaiters {
      var f := p.completed[0];
      WakeAllFails(p.(completed := p.completed[1..], futureWaiters := p.futureWaiters - {f}), p.futureWaiters[f],
        w.outcome(f));
    }
  }

  lemma {:induction false} WakeAllFails(p: Pump, list: seq<nat>, r: Resume)
    requires Known(p, list)
    ensures WakeAll(p, list, r).failed == p.failed
    decreases |list|
  {
    if list != [] {
      WakeKeepsFutures(p, list[0], r);
      WakeAllFails(Wake(p, list[0], r), list[1..], r);
    }
  }

  /** No lost wakeup: whenever the pump is not between clearing and rechecking, a queued completion has
      the event set or a producer that is about to set it. */
  lemma NoLostWakeup(w: World, steps: seq<Step>)
    requires Possible(w, EMPTY_PUMP, steps)
    requires !After(w, EMPTY_PUMP, steps).rechecking && After(w, EMPTY_PUMP, steps).completed != []
    ensures After(w, EMPTY_PUMP, steps).wake || After(w, EMPTY_PUMP, steps).setters > 0
  {
    EmptyInv(w);
    RunOk(w, EMPTY_PUMP, steps);
  }

  /** Delivering a completion resumes every fiber that waits for that future, once each. */
  lemma DeliverReachesAll(w: World, p: Pump, i: nat)
    requires Inv(w, p, [], None) && ListsKnown(p) && p.completed != []
    requires i < |p.fibers| && p.fibers[i].pending == Some(p.completed[0])
    ensures var q := Deliver(w, p);
      q.fibers[i].pending.None? && !q.fibers[i].done && Tally(q.ready, ReadyKey, i) == 1
  {
    var f, q := p.completed[0], Deliver(w, p);
    var k := WaitsBehind(w, p, i);
    WakeAllFrame(p.(completed := p.completed[1..], futureWaiters := p.futureWaiters - {f}), p.futureWaiters[f],
      w.outcome(f));
    DeliverOk(w, p);
    assert q.sleepers == p.sleepers && |q.fibers| == |p.fibers| && q.fibers[i].done == p.fibers[i].done;
    hide Deliver;
    if q.fibers[i].pending.Some? {
      var j := WaitsBehind(w, q, i);
    } else {
      IsQueued(w, q, i);
    }
  }

  /** A fiber with a pending future is behind a live waiter, listed under it, and nowhere else. */
  lemma WaitsBehind(w: World, p: Pump, i: nat) returns (k: nat)
    requires Inv(w, p, [], None) && i < |p.fibers| && p.fibers[i].pending.Some?
    ensures Behind(p, i, k) && !p.fibers[i].done
    ensures Tally(p.sleepers, SleeperKey, i) == 0
  {
    k := TallyWitness(p.waiters, WaiterKey, i);
    OnlyActiveWaiter(w, p, i, k);
    assert Places(p.ready, p.sleepers, p.waiters, i) == if p.fibers[i].done then 0 else 1;
    TallyPositive(p.waiters, k, WaiterKey, i);
  }

  /** An unfinished fiber that neither waits nor sleeps is ready, once. */
  lemma IsQueued(w: World, p: Pump, i: nat)
    requires Inv(w, p, [], None) && i < |p.fibers| && p.fibers[i].pending.None? && !p.fibers[i].done
    requires Tally(p.sleepers, SleeperKey, i) == 0
    ensures Tally(p.ready, ReadyKey, i) == 1
  {
    assert Places(p.ready, p.sleepers, p.waiters, i) == 1;
  }

  lemma {:induction false} WakeAllFrame(p: Pump, list: seq<nat>, r: Resume)
    requires Known(p, list)
    ensures var q := WakeAll(p, list, r);
      && q.sleepers == p.sleepers && q.futureWaiters == p.futureWaiters && |q.fibers| == |p.fibers|
      && forall i | 0 <= i < |p.fibers| ::
           q.fibers[i].done == p.fibers[i].done
             && (q.fibers[i].pending == p.fibers[i].pending || q.fibers[i].pending.None?)
    decreases |list|
  {
    if list != [] {
      WakeAllFrame(Wake(p, list[0], r), list[1..], r);
    }
  }

  // ---- refinement of the sequential runner ---------------------------------------------------

  /** The resumes a controller gets when every wait runs to its own end, as under a direct runner. */
  ghost predicate Natural(w: World, item: Item, history: seq<Resume>) {
    forall k | 0 <= k < |history| :: Answered(w, w.runOne(item, history[..k]), history[k])
  }

  /** No wait timed out and none was cancelled. */
  ghost predicate Undisturbed(w: World, item: Item, history: seq<Resume>) {
    forall k | 0 <= k < |history| ::
      var y := w.runOne(item, history[..k]); !TimedOut(y, history[k]) && !Cancelled(w, y, history[k])
  }

  /** `[run_one(x)]` in sequence gives `v` for this item. */
  ghost predicate DirectResult(w: World, item: Item, v: int) {
    exists history :: Natural(w, item, history) && w.runOne(item, history) == Return(v)
  }

  /** Whenever the controller returns, it returns the same value: timeouts and cancellations may keep it from
      returning, or make it try again, but do not change what it returns. */
  ghost predicate ScheduleProof(w: World, item: Item) {
    forall h1, h2 ::
      Honest(w, item, h1) && Honest(w, item, h2) && w.runOne(item, h1).Return? && w.runOne(item, h2).Return?
      ==> w.runOne(item, h1) == w.runOne(item, h2)
  }

  lemma NaturalIsHonest(w: World, item: Item, history: seq<Resume>)
    requires Natural(w, item, history)
    ensures Honest(w, item, history)
  {
    forall k | 0 <= k < |history| ensures Legit(w, w.runOne(item, history[..k]), history[k]) {
      assert Answered(w, w.runOne(item, history[..k]), history[k]);
    }
  }

  /** A fiber no wait of which timed out or was cancelled has had every wait run to its end. */
  lemma UndisturbedIsNatural(w: World, item: Item, history: seq<Resume>)
    requires Honest(w, item, history) && Undisturbed(w, item, history)
    ensures Natural(w, item, history)
  {
    forall k | 0 <= k < |history| ensures Answered(w, w.runOne(item, history[..k]), history[k]) {
      assert Legit(w, w.runOne(item, history[..k]), history[k]);
    }
  }

  /** Without deadlines, and with checks that do not raise, nothing can be disturbed. */
  lemma NothingDisturbs(w: World, item: Item, history: seq<Resume>)
    requires Honest(w, item, history) && forall n :: w.check(n).None?
    requires forall h :: w.runOne(item, h).AwaitFuture? ==> w.runOne(item, h).deadline.None?
    ensures Undisturbed(w, item, history)
  {
    forall k | 0 <= k < |history|
      ensures var y := w.runOne(item, history[..k]); !TimedOut(y, history[k]) && !Cancelled(w, y, history[k])
    {
      assert Legit(w, w.runOne(item, history[..k]), history[k]);
    }
  }

  /** Waits that run to their end leave a controller no choice: of two such histories one extends the other. */
  lemma {:induction false} NaturalUnique(w: World, item: Item, h1: seq<Resume>, h2: seq<Resume>, k: nat)
    requires Natural(w, item, h1) && Natural(w, item, h2) && k <= |h1| && k <= |h2|
    ensures h1[..k] == h2[..k]
  {
    if k > 0 {
      NaturalUnique(w, item, h1, h2, k - 1);
      assert Answered(w, w.runOne(item, h1[..k - 1]), h1[k - 1]) && Answered(w, w.runOne(item, h2[..k - 1]), h2[k - 1]);
      assert h1[..k] == h1[..k - 1] + [h1[k - 1]] && h2[..k] == h2[..k - 1] + [h2[k - 1]];
    }
  }

  /** Sequential execution has at most one result, for every controller. */
  lemma DirectUnique(w: World, item: Item, u: int, v: int)
    requires DirectResult(w, item, u) && DirectResult(w, item, v)
    ensures u == v
  {
    var h1 :| Natural(w, item, h1) && w.runOne(item, h1) == Return(u);
    var h2 :| Natural(w, item, h2) && w.runOne(item, h2) == Return(v);
    EndsTogether(w, item, h1, h2);
    EndsTogether(w, item, h2, h1);
    NaturalUnique(w, item, h1, h2, |h1|);
    assert h1[..|h1|] == h1 && h2[..|h2|] == h2;
  }

  /** A controller that has returned waits no more. */
  lemma EndsTogether(w: World, item: Item, h1: seq<Resume>, h2: seq<Resume>)
    requires Natural(w, item, h1) && Natural(w, item, h2) && w.runOne(item, h1).Return?
    ensures |h2| <= |h1|
  {
    assert |h1| < |h2| ==> Answered(w, w.runOne(item, h2[..|h1|]), h2[|h1|]);
    assert h1[..|h1|] == h1;
    if |h1| < |h2| { NaturalUnique(w, item, h1, h2, |h1|); }
  }

  ghost predicate DirectResults(w: World, items: seq<Item>, values: seq<int>) {
    |values| == |items| && forall i | 0 <= i < |items| :: DirectResult(w, items[i], values[i])
  }

  function Items(fibers: seq<Fiber>): (items: seq<Item>)
    ensures |items| == |fibers| && forall i | 0 <= i < |fibers| :: items[i] == fibers[i].item
  {
    seq(|fibers|, i requires 0 <= i < |fibers| => fibers[i].item)
  }

  /** A run that has finished every fiber without an error holds, for every item it admitted and in
      admission order, a value its controller returned: the direct one when none of its waits was disturbed,
      whatever the controller does, and when the controller's value does not depend on such disturbances. */
  lemma RefinesDirect(w: World, p: Pump, i: nat)
    requires Inv(w, p, [], None) && p.active == 0 && p.firstError.None? && i < |p.fibers|
    ensures i in p.results
    ensures Undisturbed(w, p.fibers[i].item, p.fibers[i].history) ==> DirectResult(w, p.fibers[i].item, p.results[i])
    ensures forall v | DirectResult(w, p.fibers[i].item, v)
                       && (Undisturbed(w, p.fibers[i].item, p.fibers[i].history)
                          || ScheduleProof(w, p.fibers[i].item)) ::
              p.results[i] == v
  {
    AllDone(p.fibers);
    var fiber := p.fibers[i];
    assert fiber.done && i in p.results;
    assert Honest(w, fiber.item, fiber.history) && Current(w, fiber) == Return(p.results[i]);
    hide Inv;
    FiberIsDirect(w, fiber, p.results[i]);
  }

  lemma FiberIsDirect(w: World, fiber: Fiber, result: int)
    requires Honest(w, fiber.item, fiber.history) && Current(w, fiber) == Return(result)
    ensures Undisturbed(w, fiber.item, fiber.history) ==> DirectResult(w, fiber.item, result)
    ensures forall v | DirectResult(w, fiber.item, v)
                       && (Undisturbed(w, fiber.item, fiber.history) || ScheduleProof(w, fiber.item)) :: result == v
  {
    if Undisturbed(w, fiber.item, fiber.history) {
      UndisturbedIsNatural(w, fiber.item, fiber.history);
      assert Natural(w, fiber.item, fiber.history) && w.runOne(fiber.item, fiber.history) == Return(result);
    }
    forall v | DirectResult(w, fiber.item, v)
               && (Undisturbed(w, fiber.item, fiber.history) || ScheduleProof(w, fiber.item))
      ensures result == v
    {
      if Undisturbed(w, fiber.item, fiber.history) {
        DirectUnique(w, fiber.item, result, v);
      } else {
        var history :| Natural(w, fiber.item, history) && w.runOne(fiber.item, history) == Return(v);
        NaturalIsHonest(w, fiber.item, history);
      }
    }
  }
}
