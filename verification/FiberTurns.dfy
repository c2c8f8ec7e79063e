/**
 What a turn of the pump achieves: servicing leaves nothing behind that was queued, due or to be polled, and a turn
 in which no fiber is switched in finds every fiber waiting for something that has not happened.
 */
module FiberTurns {
  import opened Prelude
  import opened FiberModel
  import opened FiberInvariant
  import opened FiberSteps
  import opened FiberService
  import opened FiberPolling
  import opened FiberProgress

  // ---- completions ---------------------------------------------------------------------------

  /** Every fiber that waited for a queued future is ready with what the future came to. */
  ghost predicate Delivered(w: World, p: Pump, q: Pump) {
    forall i: nat | i < |p.fibers| && p.fibers[i].pending.Some? && p.fibers[i].pending.value in p.completed ::
      Ready(i, w.outcome(p.fibers[i].pending.value)) in q.ready
  }

  lemma {:induction false} WakeAllWakes(p: Pump, list: seq<nat>, r: Resume, k: nat)
    requires Known(p, list) && k in list && Live(p.fibers, p.waiters[k])
    ensures Ready(p.waiters[k].fiber, r) in WakeAll(p, list, r).ready
    decreases |list|
  {
    var i, q := p.waiters[k].fiber, Wake(p, list[0], r);
    WakeKeepsFutures(p, list[0], r);
    WakeAllSameJobs(q, list[1..], r);
    if Ready(i, r) !in q.ready {
      assert list[0] != k && q.waiters[k] == p.waiters[k] && q.fibers[i] == p.fibers[i];
      WakeAllWakes(q, list[1..], r, k);
    }
  }

  lemma {:induction false} WakeAllOther(p: Pump, list: seq<nat>, r: Resume, f: Fut, i: nat)
    requires Known(p, list) && (forall j | 0 <= j < |list| :: p.waiters[list[j]].fut == f)
    requires i < |p.fibers| && p.fibers[i].pending != Some(f)
    ensures i < |WakeAll(p, list, r).fibers| && WakeAll(p, list, r).fibers[i] == p.fibers[i]
    decreases |list|
  {
    if list != [] {
      WakeKeepsFutures(p, list[0], r);
      WakeAllOther(Wake(p, list[0], r), list[1..], r, f, i);
    }
  }

  /** Draining makes ready whoever waited for a queued future, with what it came to. */
  lemma {:induction false} DrainDelivers(w: World, p: Pump, i: nat, f: Fut)
    requires Inv(w, p, [], None) && ListsKnown(p)
    requires i < |p.fibers| && p.fibers[i].pending == Some(f) && f in p.completed
    ensures Ready(i, w.outcome(f)) in Drain(w, p).ready
    decreases |p.completed|
  {
    hide Inv, SameJobs, Deliver;
    var q := Deliver(w, p);
    DeliverOk(w, p);
    InvShape(w, q);
    DeliverShortens(w, p);
    if p.completed[0] == f {
      DeliverWakes(w, p, i);
      DrainOk(w, q);
      ReadyStays(q, Drain(w, q), Ready(i, w.outcome(f)));
    } else {
      DeliverPasses(w, p, i);
      DrainDelivers(w, q, i, f);
    }
  }

  lemma DrainDeliversAll(w: World, p: Pump)
    requires Inv(w, p, [], None) && ListsKnown(p)
    ensures Delivered(w, p, Drain(w, p))
  {
    hide Inv, Drain;
    forall i: nat | i < |p.fibers| && p.fibers[i].pending.Some? && p.fibers[i].pending.value in p.completed
      ensures Ready(i, w.outcome(p.fibers[i].pending.value)) in Drain(w, p).ready
    {
      DrainDelivers(w, p, i, p.fibers[i].pending.value);
    }
  }

  lemma DeliverShortens(w: World, p: Pump)
    requires ListsKnown(p) && p.completed != []
    ensures Deliver(w, p).completed == p.completed[1..]
  {
  }

  lemma ReadyStays(p: Pump, q: Pump, r: Ready)
    requires SameJobs(p, q) && r in p.ready
    ensures r in q.ready
  {
  }

  lemma DeliverWakes(w: World, p: Pump, i: nat)
    requires Inv(w, p, [], None) && ListsKnown(p) && p.completed != []
    requires i < |p.fibers| && p.fibers[i].pending == Some(p.completed[0])
    ensures Ready(i, w.outcome(p.completed[0])) in Deliver(w, p).ready
  {
    var f := p.completed[0];
    var k := WaitsBehind(w, p, i);
    var q := p.(completed := p.completed[1..], futureWaiters := p.futureWaiters - {f});
    hide Inv, WakeAll;
    WakeAllWakes(q, p.futureWaiters[f], w.outcome(f), k);
  }

  lemma DeliverPasses(w: World, p: Pump, i: nat)
    requires Inv(w, p, [], None) && ListsKnown(p) && p.completed != []
    requires i < |p.fibers| && p.fibers[i].pending != Some(p.completed[0])
    ensures i < |Deliver(w, p).fibers| && Deliver(w, p).fibers[i] == p.fibers[i]
  {
    var f := p.completed[0];
    if f in p.futureWaiters {
      var q := p.(completed := p.completed[1..], futureWaiters := p.futureWaiters - {f});
      assert forall j | 0 <= j < |p.futureWaiters[f]| :: p.waiters[p.futureWaiters[f][j]].fut == f;
      hide Inv, WakeAll;
      WakeAllOther(q, p.futureWaiters[f], w.outcome(f), f, i);
    }
  }

  lemma {:induction false} WakeAllOwes(p: Pump, list: seq<nat>, r: Resume)
    requires Known(p, list)
    ensures WakeAll(p, list, r).callbacks == p.callbacks
    decreases |list|
  {
    if list != [] {
      WakeKeepsFutures(p, list[0], r);
      WakeAllOwes(Wake(p, list[0], r), list[1..], r);
    }
  }

  lemma {:induction false} DrainOwes(w: World, p: Pump)
    requires ListsKnown(p)
    ensures Drain(w, p).callbacks == p.callbacks
    decreases |p.completed|
  {
    if p.completed != [] {
      var f := p.completed[0];
      if f in p.futureWaiters {
        var q := p.(completed := p.completed[1..], futureWaiters := p.futureWaiters - {f});
        WakeAllOwes(q, p.futureWaiters[f], w.outcome(f));
      }
      DrainOwes(w, Deliver(w, p));
    }
  }

  // ---- timers and checks ---------------------------------------------------------------------

  /** No sleeper and no active deadline is due. */
  ghost predicate NothingDue(p: Pump, now: int) {
    && (forall k | 0 <= k < |p.sleepers| :: p.sleepers[k].at > now)
    && (forall k | 0 <= k < |p.waiters| && p.waiters[k].active && p.waiters[k].deadline.Some? ::
          p.waiters[k].deadline.value > now)
  }

  lemma DueStays(p: Pump, q: Pump, now: int)
    requires NothingDue(p, now) && SameJobs(p, q)
    ensures NothingDue(q, now)
  {
    forall k | 0 <= k < |q.sleepers| ensures q.sleepers[k].at > now {
      assert q.sleepers[k] in p.sleepers;
    }
  }

  // ---- what becomes of due sleepers and of queued resumes ------------------------------------

  /** Call `n` of the checks, made between the two states, decided how a sleeper woke; one without a check wakes
      plainly. */
  ghost predicate WokenBy(w: World, p: Pump, q: Pump, e: Sleeper, n: nat) {
    if !e.guarded then Ready(e.fiber, Plain) in q.ready
    else
      && p.calls <= n < q.calls
      && Ready(e.fiber, if w.check(n).Some? then Failure(w.check(n).value) else Plain) in q.ready
  }

  /** Each due sleeper becomes ready, with the error of its own call of the check if that raised. */
  lemma {:induction false} DueSleeperWakes(w: World, p: Pump, now: int, i: nat) returns (n: nat)
    requires Inv(w, p, [], None) && i < |p.sleepers| && p.sleepers[i].at <= now
    ensures WokenBy(w, p, FireSleepers(w, p, now), p.sleepers[i], n)
    decreases |p.sleepers|
  {
    hide Inv, SameJobs, FireSleeper;
    HeadFirst(w, p, i);
    var q := FireSleeper(w, p);
    FireSleeperOk(w, p);
    FireSleeperSameJobs(w, p);
    HeadWakes(w, p);
    FireSleepersOk(w, q, now);
    FiredLater(p, q, FireSleepers(w, q, now));
    if i == 0 {
      n := p.calls;
    } else {
      n := DueSleeperWakes(w, q, now, i - 1);
    }
  }

  lemma FiredLater(p: Pump, q: Pump, r: Pump)
    requires SameJobs(p, q) && SameJobs(q, r)
    ensures p.calls <= q.calls <= r.calls && forall x | x in q.ready :: x in r.ready
  {
  }

  lemma HeadFirst(w: World, p: Pump, i: nat)
    requires Inv(w, p, [], None) && i < |p.sleepers|
    ensures p.sleepers[0].at <= p.sleepers[i].at
  {
    assert SleepersSorted(p.sleepers);
  }

  lemma HeadWakes(w: World, p: Pump)
    requires Inv(w, p, [], None) && p.sleepers != []
    ensures var q, e := FireSleeper(w, p), p.sleepers[0];
      && q.calls == p.calls + (if e.guarded then 1 else 0)
      && WokenBy(w, p, q, e, p.calls)
  {
    assert SleeperCurrent(p.fibers, p.sleepers[0]);
  }

  /** The fiber at the head of the ready queue is switched in with the very resume it was queued with, and no other
      fiber receives anything. */
  lemma ResumedWith(w: World, p: Pump)
    requires Inv(w, p, [], None) && ReadyShaped(p) && p.ready != []
    ensures var q, r := ResumeNext(w, p), p.ready[0];
      && |q.fibers| == |p.fibers| && q.ready == p.ready[1..]
      && q.fibers[r.fiber].history == p.fibers[r.fiber].history + [r.resume]
      && forall i: nat | i < |p.fibers| && i != r.fiber :: q.fibers[i] == p.fibers[i]
  {
    assert !p.fibers[p.ready[0].fiber].done;
    hide Inv, Settle;
    var i, r := p.ready[0].fiber, p.ready[0].resume;
    SettleFrame(w, Hand(p.(ready := p.ready[1..]), i, r), i);
  }

  lemma SettleFrame(w: World, p: Pump, i: nat)
    requires i < |p.fibers|
    ensures var q := Settle(w, p, i);
      && |q.fibers| == |p.fibers| && q.ready == p.ready && q.fibers[i].history == p.fibers[i].history
      && forall j: nat | j < |p.fibers| && j != i :: q.fibers[j] == p.fibers[j]
  {
    hide ParkOnFuture, ParkAsleep;
    match Current(w, p.fibers[i])
    case AwaitFuture(fut, deadline, guarded) => ParkFrame(p, i, fut, deadline, guarded);
    case Sleep(until, guarded) => AsleepFrame(p, i, until, guarded);
    case _ =>
  }

  lemma ParkFrame(p: Pump, i: nat, fut: Fut, deadline: Option<int>, guarded: bool)
    requires i < |p.fibers|
    ensures var q := ParkOnFuture(p, i, fut, deadline, guarded);
      && |q.fibers| == |p.fibers| && q.ready == p.ready && q.fibers[i].history == p.fibers[i].history
      && forall j: nat | j < |p.fibers| && j != i :: q.fibers[j] == p.fibers[j]
  {
    hide PushDeadline;
  }

  lemma AsleepFrame(p: Pump, i: nat, until: int, guarded: bool)
    requires i < |p.fibers|
    ensures var q := ParkAsleep(p, i, until, guarded);
      && |q.fibers| == |p.fibers| && q.ready == p.ready && q.fibers[i].history == p.fibers[i].history
      && forall j: nat | j < |p.fibers| && j != i :: q.fibers[j] == p.fibers[j]
  {
    hide PushSleeper;
  }

  // ---- switches ------------------------------------------------------------------------------

  /** How often fibers have been switched in: once to start, and once for each resume received. */
  function Switches(fibers: seq<Fiber>): nat {
    if fibers == [] then 0 else |fibers[0].history| + 1 + Switches(fibers[1..])
  }

  lemma {:induction false} SwitchesSame(a: seq<Fiber>, b: seq<Fiber>)
    requires |a| == |b| && forall i | 0 <= i < |a| :: |a[i].history| == |b[i].history|
    ensures Switches(a) == Switches(b)
  {
    if a != [] { SwitchesSame(a[1..], b[1..]); }
  }

  lemma SwitchesServiced(p: Pump, q: Pump)
    requires SameJobs(p, q)
    ensures Switches(q.fibers) == Switches(p.fibers)
  {
    SwitchesSame(p.fibers, q.fibers);
  }

  lemma {:induction false} SwitchesUpdate(fibers: seq<Fiber>, i: nat, x: Fiber)
    requires i < |fibers|
    ensures Switches(fibers[i := x]) == Switches(fibers) + |x.history| - |fibers[i].history|
  {
    if i > 0 {
      assert fibers[i := x][1..] == fibers[1..][i - 1 := x];
      SwitchesUpdate(fibers[1..], i - 1, x);
    } else {
      assert fibers[i := x][1..] == fibers[1..];
    }
  }

  lemma {:induction false} SwitchesNew(fibers: seq<Fiber>, x: Fiber)
    ensures Switches(fibers + [x]) == Switches(fibers) + |x.history| + 1
  {
    if fibers == [] {
      assert (fibers + [x])[1..] == [];
    } else {
      assert (fibers + [x])[1..] == fibers[1..] + [x];
      SwitchesNew(fibers[1..], x);
    }
  }

  lemma SettleSwitches(w: World, p: Pump, i: nat)
    requires i < |p.fibers|
    ensures |Settle(w, p, i).fibers| == |p.fibers| && Switches(Settle(w, p, i).fibers) == Switches(p.fibers)
  {
    hide PushSleeper, PushDeadline;
    var q := Settle(w, p, i);
    assert |q.fibers| == |p.fibers| && forall j | 0 <= j < |p.fibers| :: q.fibers[j].history == p.fibers[j].history;
    SwitchesSame(p.fibers, q.fibers);
  }

  lemma ResumeSwitches(w: World, p: Pump)
    requires Inv(w, p, [], None) && ReadyShaped(p) && p.ready != []
    ensures Switches(ResumeNext(w, p).fibers) == Switches(p.fibers) + 1
  {
    hide Settle;
    var i, r := p.ready[0].fiber, p.ready[0].resume;
    assert !p.fibers[i].done;
    hide Inv;
    SwitchesUpdate(p.fibers, i, p.fibers[i].(history := p.fibers[i].history + [r]));
    SettleSwitches(w, Hand(p.(ready := p.ready[1..]), i, r), i);
  }

  lemma LaunchSwitches(w: World, p: Pump, item: Item)
    ensures Switches(Launch(w, p, item).fibers) == Switches(p.fibers) + 1
  {
    hide Settle;
    SwitchesNew(p.fibers, Fiber(item, [], 0, false, None));
    SettleSwitches(w, NewState(p, item), |p.fibers|);
  }

  /** With controllers of at most `bound` waits there are at most `bound + 1` switches for each fiber. */
  lemma SwitchesBound(w: World, p: Pump, bound: nat)
    requires Inv(w, p, [], None) && Brief(w, bound)
    ensures Switches(p.fibers) <= (bound + 1) * |p.fibers|
  {
    forall i | 0 <= i < |p.fibers| ensures |p.fibers[i].history| <= bound {
      HistoryShort(w, p.fibers[i].item, p.fibers[i].history, bound);
    }
    hide Inv, Brief;
    SwitchesAtMost(p.fibers, bound);
  }

  lemma HistoryShort(w: World, item: Item, history: seq<Resume>, bound: nat)
    requires Honest(w, item, history) && Brief(w, bound)
    ensures |history| <= bound
  {
    if history != [] {
      var last := |history| - 1;
      assert Legit(w, w.runOne(item, history[..last]), history[last]);
      assert IsWait(w.runOne(item, history[..last])) && |history[..last]| == last;
    }
  }

  lemma {:induction false} SwitchesAtMost(fibers: seq<Fiber>, bound: nat)
    requires forall i | 0 <= i < |fibers| :: |fibers[i].history| <= bound
    ensures Switches(fibers) <= (bound + 1) * |fibers|
  {
    if fibers != [] { SwitchesAtMost(fibers[1..], bound); }
  }

  // ---- idle turns ----------------------------------------------------------------------------

  /** Every unfinished fiber sleeps past `now` or waits for a future that was still pending, its callback owed, in the
      earlier state `p`; and nothing is ready. */
  ghost predicate AllWait(p: Pump, q: Pump, now: int) {
    && q.ready == []
    && forall i: nat | i < |q.fibers| && !q.fibers[i].done ::
         || SleepsPast(q, i, now)
         || (q.fibers[i].pending.Some? && q.fibers[i].pending.value in p.callbacks)
  }

  ghost predicate SleepsPast(q: Pump, i: nat, now: int) {
    exists k :: 0 <= k < |q.sleepers| && q.sleepers[k].fiber == i && q.sleepers[k].at > now
  }

  lemma IdleMeansAllWait(w: World, p: Pump, q: Pump, now: int)
    requires Inv(w, q, [], None) && q.ready == [] && NothingDue(q, now)
    requires q.callbacks + multiset(q.completed) <= p.callbacks
    ensures AllWait(p, q, now)
  {
    forall i: nat | i < |q.fibers| && !q.fibers[i].done
      ensures SleepsPast(q, i, now) || (q.fibers[i].pending.Some? && q.fibers[i].pending.value in p.callbacks)
    {
      assert Places(q.ready, q.sleepers, q.waiters, i) == 1;
      if Tally(q.sleepers, SleeperKey, i) >= 1 {
        var k := TallyWitness(q.sleepers, SleeperKey, i);
        assert SleepsPast(q, i, now);
      } else {
        var k := TallyWitness(q.waiters, WaiterKey, i);
        OnlyActiveWaiter(w, q, i, k);
        Owed(q, p.callbacks, q.fibers[i].pending.value);
      }
    }
  }

  lemma Owed(q: Pump, owed: multiset<Fut>, f: Fut)
    requires q.callbacks + multiset(q.completed) <= owed && (f in q.callbacks || f in q.completed)
    ensures f in owed
  {
    assert f in q.completed ==> f in multiset(q.completed);
    assert (q.callbacks + multiset(q.completed))[f] >= 1;
  }

  // ---- busy turns ----------------------------------------------------------------------------

  /** Something can be done for a fiber at once: it is ready, its future is queued as completed, or its sleep or the
      deadline of its wait has passed. */
  ghost predicate HasWork(p: Pump, now: int) {
    || p.ready != []
    || (exists i :: 0 <= i < |p.fibers| && p.fibers[i].pending.Some? && p.fibers[i].pending.value in p.completed)
    || (exists k :: 0 <= k < |p.sleepers| && p.sleepers[k].at <= now)
    || exists k :: DeadlinePassed(p, k, now)
  }

  ghost predicate DeadlinePassed(p: Pump, k: int, now: int) {
    && 0 <= k < |p.waiters| && p.waiters[k].active
    && p.waiters[k].deadline.Some? && p.waiters[k].deadline.value <= now
  }

  /** Servicing then makes some fiber ready. */
  lemma WorkMakesReady(w: World, p: Pump, q: Pump, now: int, later: int)
    requires Inv(w, p, [], None) && Inv(w, q, [], None) && SameJobs(p, q)
    requires HasWork(p, now) && now <= later && NothingDue(q, later) && Delivered(w, p, q)
    ensures q.ready != []
  {
    if exists k :: 0 <= k < |p.sleepers| && p.sleepers[k].at <= now {
      var k :| 0 <= k < |p.sleepers| && p.sleepers[k].at <= now;
      SleptOut(w, p, q, k, later);
    } else if exists k :: DeadlinePassed(p, k, now) {
      var k :| DeadlinePassed(p, k, now);
      TimedOutReady(w, p, q, k, later);
    } else if p.ready == [] {
      var i :| 0 <= i < |p.fibers| && p.fibers[i].pending.Some? && p.fibers[i].pending.value in p.completed;
      assert Ready(i, w.outcome(p.fibers[i].pending.value)) in q.ready;
    }
  }

  /** Whoever is asleep afterwards was asleep before, with the same entry. */
  lemma StillAsleep(p: Pump, q: Pump, i: nat) returns (k: nat)
    requires WaitsEnd(p, q) && Tally(q.sleepers, SleeperKey, i) >= 1
    ensures k < |p.sleepers| && p.sleepers[k].fiber == i && p.sleepers[k] in q.sleepers
    ensures Tally(p.sleepers, SleeperKey, i) >= 1
  {
    var j := TallyWitness(q.sleepers, SleeperKey, i);
    assert q.sleepers[j] in p.sleepers;
    var m :| 0 <= m < |p.sleepers| && p.sleepers[m] == q.sleepers[j];
    k := m;
    TallyPositive(p.sleepers, k, SleeperKey, i);
  }

  /** Whoever is behind a waiter afterwards was behind it before. */
  lemma StillBehind(p: Pump, q: Pump, i: nat) returns (k: nat)
    requires WaitsEnd(p, q) && Tally(q.waiters, WaiterKey, i) >= 1
    ensures k < |p.waiters| && p.waiters[k].active && p.waiters[k].fiber == i && q.waiters[k] == p.waiters[k]
    ensures Tally(p.waiters, WaiterKey, i) >= 1
  {
    k := TallyWitness(q.waiters, WaiterKey, i);
    TallyPositive(p.waiters, k, WaiterKey, i);
  }

  lemma OnlyEntry<T>(s: seq<T>, key: T -> int, i: int, j: nat, k: nat)
    requires Tally(s, key, i) <= 1 && j < |s| && k < |s| && key(s[j]) == i && key(s[k]) == i
    ensures j == k
  {
    if j < k { TallyTwo(s, j, k, key, i); }
    if k < j { TallyTwo(s, k, j, key, i); }
  }

  lemma SleptOut(w: World, p: Pump, q: Pump, k: nat, now: int)
    requires Inv(w, p, [], None) && Inv(w, q, [], None) && SameJobs(p, q) && NothingDue(q, now)
    requires k < |p.sleepers| && p.sleepers[k].at <= now
    ensures q.ready != []
  {
    var i := p.sleepers[k].fiber;
    assert SleeperCurrent(p.fibers, p.sleepers[k]);
    TallyPositive(p.sleepers, k, SleeperKey, i);
    assert Places(p.ready, p.sleepers, p.waiters, i) == 1 && Places(q.ready, q.sleepers, q.waiters, i) == 1;
    hide Inv, WaitsEnd;
    if Tally(q.sleepers, SleeperKey, i) >= 1 {
      var m := StillAsleep(p, q, i);
      OnlyEntry(p.sleepers, SleeperKey, i, m, k);
    } else if Tally(q.waiters, WaiterKey, i) >= 1 {
      var j := StillBehind(p, q, i);
    }
  }

  lemma TimedOutReady(w: World, p: Pump, q: Pump, k: nat, now: int)
    requires Inv(w, p, [], None) && Inv(w, q, [], None) && SameJobs(p, q) && NothingDue(q, now)
    requires DeadlinePassed(p, k, now)
    ensures q.ready != []
  {
    var i := p.waiters[k].fiber;
    assert WaiterOk(w, p.fibers, p.waiters[k]);
    TallyPositive(p.waiters, k, WaiterKey, i);
    assert Places(p.ready, p.sleepers, p.waiters, i) == 1 && Places(q.ready, q.sleepers, q.waiters, i) == 1;
    hide Inv, WaitsEnd;
    if Tally(q.sleepers, SleeperKey, i) >= 1 {
      var m := StillAsleep(p, q, i);
    } else if Tally(q.waiters, WaiterKey, i) >= 1 {
      var j := StillBehind(p, q, i);
      OnlyEntry(p.waiters, WaiterKey, i, j, k);
    }
  }
}
