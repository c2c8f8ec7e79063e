/**
 The pump comes to its end.  When every controller ends after boundedly many waits, a run has boundedly many
 steps that advance a fiber or a completion, whatever the deadlines, cancellations and producers do; and until
 every fiber has ended, some such step can be taken unless a future is still pending.
 */
module FiberProgress {
  import opened Prelude
  import opened FiberModel
  import opened FiberInvariant
  import opened FiberSteps

  /** No controller waits more than `bound` times, however its waits end. */
  ghost predicate Brief(w: World, bound: nat) {
    forall item, history :: |history| >= bound ==> !IsWait(w.runOne(item, history))
  }

  // ---- what is left to do --------------------------------------------------------------------

  /** Waits a fiber may still make, the present one included. */
  function WaitsLeft(f: Fiber, bound: nat): int {
    if f.done then 0 else bound - |f.history|
  }

  function AllWaits(fibers: seq<Fiber>, bound: nat): int {
    if fibers == [] then 0 else WaitsLeft(fibers[0], bound) + AllWaits(fibers[1..], bound)
  }

  function ActiveKey(x: Waiter): int { if x.active then 1 else 0 }

  /** Each wait costs a park, a deadline, a callback with its put and set, a wake and a resumption. */
  function Work(p: Pump, bound: nat): int {
    6 * AllWaits(p.fibers, bound) + |p.sleepers| + Tally(p.waiters, ActiveKey, 1) + |p.deadlines|
    + |p.completed| + 3 * |p.callbacks| + p.setters
  }

  lemma {:induction false} WaitsChange(fibers: seq<Fiber>, i: nat, x: Fiber, bound: nat)
    requires i < |fibers|
    ensures AllWaits(fibers[i := x], bound)
         == AllWaits(fibers, bound) - WaitsLeft(fibers[i], bound) + WaitsLeft(x, bound)
  {
    if i > 0 {
      assert fibers[i := x][1..] == fibers[1..][i - 1 := x];
      WaitsChange(fibers[1..], i - 1, x, bound);
    } else {
      assert fibers[i := x][1..] == fibers[1..];
    }
  }

  lemma {:induction false} WaitsNew(fibers: seq<Fiber>, x: Fiber, bound: nat)
    ensures AllWaits(fibers + [x], bound) == AllWaits(fibers, bound) + WaitsLeft(x, bound)
  {
    if fibers == [] {
      assert (fibers + [x])[1..] == [];
    } else {
      assert (fibers + [x])[1..] == fibers[1..] + [x];
      WaitsNew(fibers[1..], x, bound);
    }
  }

  lemma {:induction false} WaitsSum(fibers: seq<Fiber>, bound: nat)
    requires forall i | 0 <= i < |fibers| :: WaitsLeft(fibers[i], bound) >= 0
    ensures AllWaits(fibers, bound) >= 0
  {
    if fibers != [] { WaitsSum(fibers[1..], bound); }
  }

  /** An unfinished fiber is in a wait, so it has one left. */
  lemma WaitsRemain(w: World, p: Pump, bound: nat)
    requires Inv(w, p, [], None) && Brief(w, bound)
    ensures forall i | 0 <= i < |p.fibers| && !p.fibers[i].done :: WaitsLeft(p.fibers[i], bound) >= 1
    ensures Work(p, bound) >= 0
  {
    forall i | 0 <= i < |p.fibers| && !p.fibers[i].done ensures WaitsLeft(p.fibers[i], bound) >= 1 {
      assert IsWait(Current(w, p.fibers[i]));
    }
    hide Inv, Brief;
    WaitsSum(p.fibers, bound);
  }

  // ---- every advance uses some of it up ------------------------------------------------------

  /** The step moves a fiber or a completion on; polls count when they wake somebody. */
  predicate Advances(p: Pump, s: Step, q: Pump) {
    || s.CallbackPut? || s.CallbackSet? || s.DeliverOne? || s.SleeperDue? || s.DeadlineDue? || s.ResumeReady?
    || ((s.PollOne? || s.PollSleeperAt?) && q.ready != p.ready)
  }

  lemma WakeWork(p: Pump, k: nat, r: Resume, bound: nat)
    requires k < |p.waiters|
    ensures var q := Wake(p, k, r);
      Work(q, bound) <= Work(p, bound) && (p.waiters[k].active ==> Work(q, bound) < Work(p, bound))
  {
    hide Work;
    DeactivateWork(p, k, bound);
    if Live(p.fibers, p.waiters[k]) {
      var i := p.waiters[k].fiber;
      RouseWork(Deactivate(p, k), i, r, bound);
    }
  }

  lemma DeactivateWork(p: Pump, k: nat, bound: nat)
    requires k < |p.waiters|
    ensures Work(Deactivate(p, k), bound) == Work(p, bound) - if p.waiters[k].active then 1 else 0
  {
    TallyUpdate(p.waiters, k, p.waiters[k].(active := false), ActiveKey, 1);
    hide AllWaits, Tally;
  }

  lemma RouseWork(p: Pump, i: nat, r: Resume, bound: nat)
    requires i < |p.fibers|
    ensures Work(p.(fibers := p.fibers[i := p.fibers[i].(pending := None)], ready := p.ready + [Ready(i, r)]), bound)
         == Work(p, bound)
  {
    WaitsChange(p.fibers, i, p.fibers[i].(pending := None), bound);
    hide AllWaits, Tally;
  }

  lemma {:induction false} WakeAllWork(p: Pump, list: seq<nat>, r: Resume, bound: nat)
    requires Known(p, list)
    ensures Work(WakeAll(p, list, r), bound) <= Work(p, bound)
    decreases |list|
  {
    hide Work, Wake;
    if list != [] {
      WakeWork(p, list[0], r, bound);
      WakeSize(p, list[0], r);
      WakeAllWork(Wake(p, list[0], r), list[1..], r, bound);
    }
  }

  lemma WakeSize(p: Pump, k: nat, r: Resume)
    requires k < |p.waiters|
    ensures |Wake(p, k, r).waiters| == |p.waiters|
  {
  }

  lemma DeliverWork(w: World, p: Pump, bound: nat)
    requires ListsKnown(p) && p.completed != []
    ensures Work(Deliver(w, p), bound) < Work(p, bound)
  {
    var f := p.completed[0];
    if f in p.futureWaiters {
      var q := p.(completed := p.completed[1..], futureWaiters := p.futureWaiters - {f});
      assert Work(q, bound) < Work(p, bound);
      hide Work, WakeAll;
      WakeAllWork(q, p.futureWaiters[f], w.outcome(f), bound);
    }
  }

  lemma DeadlineWork(p: Pump, bound: nat)
    requires DeadlinesKnown(p) && p.deadlines != []
    ensures Work(FireDeadline(p), bound) < Work(p, bound)
  {
    var q := p.(deadlines := p.deadlines[1..]);
    assert Work(q, bound) < Work(p, bound);
    hide Work, Wake;
    WakeWork(q, p.deadlines[0].waiter, Failure(FutureTimeout), bound);
  }

  lemma PollWork(w: World, p: Pump, k: nat, bound: nat)
    requires Inv(w, p, [], None) && k < |p.waiters|
    ensures var q := PollWaiter(w, p, k);
      Work(q, bound) <= Work(p, bound) && (q.ready != p.ready ==> Work(q, bound) < Work(p, bound))
  {
    assert WaiterOk(w, p.fibers, p.waiters[k]);
    hide Inv;
    var x := p.waiters[k];
    var q := AfterCheck(p, x.guarded);
    assert Work(q, bound) == Work(p, bound);
    if x.active && Verdict(w, p, x.guarded).Some? {
      hide Work, Wake;
      WakeWork(q, k, Failure(Verdict(w, p, x.guarded).value), bound);
    }
  }

  lemma PollSleeperWork(w: World, p: Pump, j: nat, bound: nat)
    requires j < |p.sleepers|
    ensures var q := PollSleeper(w, p, j);
      Work(q, bound) <= Work(p, bound) && (q.ready != p.ready ==> Work(q, bound) < Work(p, bound))
  {
    hide SleeperCurrent, Verdict, AllWaits, Tally;
  }

  lemma PutWork(p: Pump, f: Fut, bound: nat)
    requires f in p.callbacks
    ensures var q := p.(callbacks := p.callbacks - multiset{f}, completed := p.completed + [f],
        setters := p.setters + 1);
      Work(q, bound) < Work(p, bound)
  {
    assert p.callbacks == (p.callbacks - multiset{f}) + multiset{f};
  }

  /** Filing what a fiber yielded: a wait costs at most five. */
  lemma SettleWork(w: World, p: Pump, i: nat, bound: nat)
    requires i < |p.fibers| && !p.fibers[i].done && WaitsLeft(p.fibers[i], bound) >= 0
    ensures Work(Settle(w, p, i), bound) <= Work(p, bound) + 5
  {
    hide Work, ParkOnFuture, ParkAsleep, Finish;
    match Current(w, p.fibers[i])
    case AwaitFuture(fut, deadline, guarded) => ParkWork(p, i, fut, deadline, guarded, bound);
    case Sleep(until, guarded) => AsleepWork(p, i, until, guarded, bound);
    case Return(v) => FinishWork(p, i, bound, Finish(p, i).(results := p.results[i := v]));
    case Raise(e) => FinishWork(p, i, bound, Finish(p, i).(firstError := FirstError(p, e), failed := p.failed + [i]));
    case Unsupported =>
      FinishWork(p, i, bound, Finish(p, i).(firstError := FirstError(p, UnsupportedYield), failed := p.failed + [i]));
  }

  lemma ParkWork(p: Pump, i: nat, fut: Fut, deadline: Option<int>, guarded: bool, bound: nat)
    requires i < |p.fibers|
    ensures Work(ParkOnFuture(p, i, fut, deadline, guarded), bound) <= Work(p, bound) + 5
  {
    var token := p.fibers[i].token + 1;
    WaitsChange(p.fibers, i, p.fibers[i].(token := token, pending := Some(fut)), bound);
    TallyAppend(p.waiters, Waiter(i, token, fut, deadline, guarded, true), ActiveKey, 1);
    hide AllWaits, Tally;
    if deadline.Some? { DeadlinePushed(p.deadlines, Deadline(deadline.value, p.serial + 1, |p.waiters|)); }
  }

  lemma AsleepWork(p: Pump, i: nat, until: int, guarded: bool, bound: nat)
    requires i < |p.fibers|
    ensures Work(ParkAsleep(p, i, until, guarded), bound) == Work(p, bound) + 1
  {
    var token := p.fibers[i].token + 1;
    WaitsChange(p.fibers, i, p.fibers[i].(token := token), bound);
    hide AllWaits;
    SleeperPushed(p.sleepers, Sleeper(until, p.serial + 1, i, token, guarded));
  }

  lemma FinishWork(p: Pump, i: nat, bound: nat, q: Pump)
    requires i < |p.fibers| && WaitsLeft(p.fibers[i], bound) >= 0
    requires q == Finish(p, i).(results := q.results, firstError := q.firstError, failed := q.failed)
    ensures Work(q, bound) <= Work(p, bound)
  {
    WaitsChange(p.fibers, i, p.fibers[i].(done := true), bound);
    hide AllWaits;
  }

  lemma {:induction false} DeadlinePushed(s: seq<Deadline>, e: Deadline)
    ensures |PushDeadline(s, e)| == |s| + 1
  {
    if s != [] && e.at >= s[0].at { DeadlinePushed(s[1..], e); }
  }

  lemma {:induction false} SleeperPushed(s: seq<Sleeper>, e: Sleeper)
    ensures |PushSleeper(s, e)| == |s| + 1
  {
    if s != [] && e.at >= s[0].at { SleeperPushed(s[1..], e); }
  }

  /** A resumption uses one wait up. */
  lemma ResumeWork(w: World, p: Pump, bound: nat)
    requires Inv(w, p, [], None) && Brief(w, bound) && ReadyShaped(p) && p.ready != []
    ensures Work(ResumeNext(w, p), bound) < Work(p, bound)
  {
    WaitsRemain(w, p, bound);
    var i, r := p.ready[0].fiber, p.ready[0].resume;
    assert !p.fibers[i].done;
    hide Inv, Brief, Settle;
    var q := p.(ready := p.ready[1..]);
    WaitsChange(p.fibers, i, p.fibers[i].(history := p.fibers[i].history + [r]), bound);
    var handed := Hand(q, i, r);
    assert Work(handed, bound) == Work(p, bound) - 6;
    hide Work;
    SettleWork(w, handed, i, bound);
  }

  lemma LaunchWork(w: World, p: Pump, item: Item, bound: nat)
    ensures Work(Launch(w, p, item), bound) <= Work(p, bound) + 6 * bound + 5
  {
    hide Settle;
    WaitsNew(p.fibers, Fiber(item, [], 0, false, None), bound);
    var q := NewState(p, item);
    assert Work(q, bound) == Work(p, bound) + 6 * bound;
    hide Work;
    SettleWork(w, q, |p.fibers|, bound);
  }

  /** An admission adds a bounded amount of work, an advance uses some up, and nothing else adds any. */
  lemma StepWork(w: World, p: Pump, s: Step, bound: nat)
    requires Inv(w, p, [], None) && Brief(w, bound) && Enabled(p, s)
    ensures var q := Apply(w, p, s);
      && Work(q, bound) <= Work(p, bound) + (if s.Admit? then 6 * bound + 5 else 0)
      && (Advances(p, s, q) ==> Work(q, bound) < Work(p, bound))
  {
    hide Inv, Brief, Deliver, FireSleeper, FireDeadline, PollWaiter, PollSleeper, ResumeNext, Launch;
    match s
    case CallbackPut(f) => PutWork(p, f, bound);
    case DeliverOne => DeliverWork(w, p, bound);
    case SleeperDue(_) => SleeperWork(w, p, bound);
    case DeadlineDue(_) => DeadlineWork(p, bound);
    case PollOne(k) => PollWork(w, p, k, bound);
    case PollSleeperAt(j) => PollSleeperWork(w, p, j, bound);
    case ResumeReady => ResumeWork(w, p, bound);
    case Admit(item) => LaunchWork(w, p, item, bound);
    case _ =>
  }

  lemma SleeperWork(w: World, p: Pump, bound: nat)
    requires p.sleepers != []
    ensures Work(FireSleeper(w, p), bound) < Work(p, bound)
  {
    hide SleeperCurrent, Verdict, AllWaits, Tally;
  }

  // ---- whole runs ----------------------------------------------------------------------------

  /** The steps of a run that advance something. */
  ghost function Advancing(w: World, p: Pump, steps: seq<Step>): nat
    requires Possible(w, p, steps)
    decreases |steps|
  {
    if steps == [] then 0
    else
      var q := Apply(w, p, steps[0]);
      (if Advances(p, steps[0], q) then 1 else 0) + Advancing(w, q, steps[1..])
  }

  function Admissions(steps: seq<Step>): nat {
    if steps == [] then 0 else (if steps[0].Admit? then 1 else 0) + Admissions(steps[1..])
  }

  lemma {:induction false} AdvancingBound(w: World, p: Pump, steps: seq<Step>, bound: nat)
    requires Inv(w, p, [], None) && Brief(w, bound) && Possible(w, p, steps)
    ensures Advancing(w, p, steps) <= Work(p, bound) + (6 * bound + 5) * Admissions(steps)
    decreases |steps|
  {
    hide Inv, Brief, Work, Apply, Advances;
    WaitsRemain(w, p, bound);
    if steps != [] {
      StepOk(w, p, steps[0]);
      StepWork(w, p, steps[0], bound);
      AdvancingBound(w, Apply(w, p, steps[0]), steps[1..], bound);
    }
  }

  /** A run that admits `n` items to controllers of at most `bound` waits advances at most `(6 * bound + 5) * n`
      times. */
  lemma PumpEnds(w: World, steps: seq<Step>, bound: nat)
    requires Brief(w, bound) && Possible(w, EMPTY_PUMP, steps)
    ensures Advancing(w, EMPTY_PUMP, steps) <= (6 * bound + 5) * Admissions(steps)
  {
    EmptyInv(w);
    assert Work(EMPTY_PUMP, bound) == 0;
    AdvancingBound(w, EMPTY_PUMP, steps, bound);
  }

  // ---- something can always advance ----------------------------------------------------------

  /** While a fiber is unfinished and no owed callback waits for a pending future, some step advances. */
  lemma CanAdvance(w: World, p: Pump, i: nat) returns (s: Step)
    requires Inv(w, p, [], None) && i < |p.fibers| && !p.fibers[i].done
    requires forall f | f in p.callbacks :: f in p.finished
    ensures Enabled(p, s) && Advances(p, s, Apply(w, p, s))
  {
    InvShape(w, p);
    if p.ready != [] {
      s := ResumeReady;
    } else if p.completed != [] {
      s := DeliverOne;
    } else if p.sleepers != [] {
      s := SleeperDue(p.sleepers[0].at);
    } else {
      assert Places(p.ready, p.sleepers, p.waiters, i) == 1;
      var k := TallyWitness(p.waiters, WaiterKey, i);
      assert Registered(p.futureWaiters, k, p.waiters[k].fut);
      s := CallbackPut(p.waiters[k].fut);
    }
  }

  /** So a run in which nothing can advance any more has finished every fiber, or waits for a pending future. */
  lemma RestMeansFinished(w: World, steps: seq<Step>)
    requires Possible(w, EMPTY_PUMP, steps)
    requires var p := After(w, EMPTY_PUMP, steps);
      && (forall f | f in p.callbacks :: f in p.finished)
      && (forall s | Enabled(p, s) :: !Advances(p, s, Apply(w, p, s)))
    ensures var p := After(w, EMPTY_PUMP, steps); p.active == 0 && forall i | 0 <= i < |p.fibers| :: p.fibers[i].done
  {
    EmptyInv(w);
    RunOk(w, EMPTY_PUMP, steps);
    var p := After(w, EMPTY_PUMP, steps);
    hide After, Possible;
    forall i | 0 <= i < |p.fibers| ensures p.fibers[i].done {
      if !p.fibers[i].done { var s := CanAdvance(w, p, i); }
    }
    AllDone(p.fibers);
  }
}
