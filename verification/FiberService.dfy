/**
 The servicing loops of the pump, each a fold of single steps: they keep the invariant, they change
 no job's ending, and they leave nothing undone that was due.
 */
module FiberService {
  import opened Prelude
  import opened FiberModel
  import opened FiberInvariant
  import opened FiberSteps

  /** Servicing moves fibers between places; it starts, resumes, finishes and fails none. */
  ghost predicate SameJobs(p: Pump, q: Pump) {
    && |q.fibers| == |p.fibers|
    && (forall i | 0 <= i < |p.fibers| :: SameFiber(p.fibers[i], q.fibers[i]))
    && q.active == p.active && q.results == p.results && q.rechecking == p.rechecking
    && q.firstError == p.firstError && q.failed == p.failed
    && WaitsEnd(p, q)
  }

  ghost predicate SameFiber(x: Fiber, y: Fiber) {
    y.item == x.item && y.done == x.done && y.history == x.history
  }

  /** Waits are ended and none begun: waiters retire, sleepers leave the heap, fibers become ready, checks are called,
      and each completion still queued was owed or queued before. */
  ghost predicate WaitsEnd(p: Pump, q: Pump) {
    && |q.waiters| == |p.waiters|
    && (forall k | 0 <= k < |p.waiters| ::
          q.waiters[k] == p.waiters[k] || q.waiters[k] == p.waiters[k].(active := false))
    && (forall x | x in q.sleepers :: x in p.sleepers)
    && p.ready <= q.ready && p.calls <= q.calls
    && q.callbacks + multiset(q.completed) <= p.callbacks + multiset(p.completed)
  }

  lemma SameJobsTrans(p: Pump, q: Pump, r: Pump)
    requires SameJobs(p, q) && SameJobs(q, r)
    ensures SameJobs(p, r)
  {
  }

  lemma SameJobsRefl(p: Pump)
    ensures SameJobs(p, p)
  {
  }

  /** Fields that no job and no wait depends on. */
  lemma CheckSameJobs(p: Pump, guarded: bool)
    ensures SameJobs(p, AfterCheck(p, guarded))
  {
  }

  lemma RouseSameJobs(p: Pump, j: nat, guarded: bool, r: Ready)
    requires j < |p.sleepers|
    ensures SameJobs(p, AfterCheck(p, guarded).(sleepers := p.sleepers[..j] + p.sleepers[j + 1..],
      ready := p.ready + [r]))
    ensures SameJobs(p, p.(sleepers := p.sleepers[..j] + p.sleepers[j + 1..]))
  {
  }

  lemma WakeSameJobs(p: Pump, k: nat, r: Resume)
    requires k < |p.waiters|
    ensures SameJobs(p, Wake(p, k, r))
  {
  }

  lemma FireSleeperSameJobs(w: World, p: Pump)
    requires p.sleepers != []
    ensures SameJobs(p, FireSleeper(w, p)) && FireSleeper(w, p).sleepers == p.sleepers[1..]
  {
    hide SameJobs, SleeperCurrent, Verdict;
    var e := p.sleepers[0];
    var r := if Verdict(w, p, e.guarded).Some? then Failure(Verdict(w, p, e.guarded).value) else Plain;
    RouseSameJobs(p, 0, e.guarded, Ready(e.fiber, r));
    assert p.sleepers[..0] + p.sleepers[0 + 1..] == p.sleepers[1..];
  }

  lemma FireDeadlineSameJobs(p: Pump)
    requires DeadlinesKnown(p) && p.deadlines != []
    ensures SameJobs(p, FireDeadline(p)) && FireDeadline(p).sleepers == p.sleepers
  {
    var q := p.(deadlines := p.deadlines[1..]);
    assert SameJobs(p, q);
    hide SameJobs;
    WakeSameJobs(q, p.deadlines[0].waiter, Failure(FutureTimeout));
    SameJobsTrans(p, q, Wake(q, p.deadlines[0].waiter, Failure(FutureTimeout)));
  }

  lemma PollWaiterSameJobs(w: World, p: Pump, k: nat)
    requires k < |p.waiters|
    ensures SameJobs(p, PollWaiter(w, p, k)) && |PollWaiter(w, p, k).waiters| == |p.waiters|
  {
    hide SameJobs, Wake, Verdict;
    SameJobsRefl(p);
    DeactivateSameJobs(p, k);
    var guarded := p.waiters[k].guarded;
    CheckSameJobs(p, guarded);
    if Verdict(w, p, guarded).Some? {
      var q, r := AfterCheck(p, guarded), Failure(Verdict(w, p, guarded).value);
      WakeSameJobs(q, k, r);
      SameJobsTrans(p, q, Wake(q, k, r));
    }
  }

  lemma DeactivateSameJobs(p: Pump, k: nat)
    requires k < |p.waiters|
    ensures SameJobs(p, Deactivate(p, k))
  {
  }

  lemma {:induction false} PollSleeperSameJobs(w: World, p: Pump, j: nat)
    requires j < |p.sleepers|
    ensures SameJobs(p, PollSleeper(w, p, j)) && |p.sleepers| - 1 <= |PollSleeper(w, p, j).sleepers| <= |p.sleepers|
  {
    hide SameJobs, SleeperCurrent, Verdict;
    var e := p.sleepers[j];
    CheckSameJobs(p, e.guarded);
    var r := Failure(if Verdict(w, p, e.guarded).Some? then Verdict(w, p, e.guarded).value else FutureTimeout);
    RouseSameJobs(p, j, e.guarded, Ready(e.fiber, r));
  }

  lemma DeliverSameJobs(w: World, p: Pump)
    requires ListsKnown(p) && p.completed != []
    ensures SameJobs(p, Deliver(w, p))
  {
    var f := p.completed[0];
    if f in p.futureWaiters {
      var q := p.(completed := p.completed[1..], futureWaiters := p.futureWaiters - {f});
      assert Known(q, p.futureWaiters[f]);
      assert SameJobs(p, q) by { DequeueSameJobs(p); }
      hide SameJobs, WakeAll;
      WakeAllSameJobs(q, p.futureWaiters[f], w.outcome(f));
      SameJobsTrans(p, q, WakeAll(q, p.futureWaiters[f], w.outcome(f)));
    } else {
      DequeueSameJobs(p);
    }
  }

  lemma DequeueSameJobs(p: Pump)
    requires p.completed != []
    ensures forall table :: SameJobs(p, p.(completed := p.completed[1..], futureWaiters := table))
  {
    assert p.completed == [p.completed[0]] + p.completed[1..];
  }

  lemma {:induction false} WakeAllSameJobs(p: Pump, list: seq<nat>, r: Resume)
    requires Known(p, list)
    ensures SameJobs(p, WakeAll(p, list, r))
    decreases |list|
  {
    hide Wake, SameJobs;
    SameJobsRefl(p);
    if list != [] {
      WakeSameJobs(p, list[0], r);
      WakeKeepsFutures(p, list[0], r);
      WakeAllSameJobs(Wake(p, list[0], r), list[1..], r);
      SameJobsTrans(p, Wake(p, list[0], r), WakeAll(p, list, r));
    }
  }

  lemma {:induction false} DrainOk(w: World, p: Pump)
    requires Inv(w, p, [], None) && ListsKnown(p)
    ensures Inv(w, Drain(w, p), [], None) && SameJobs(p, Drain(w, p)) && Drain(w, p).completed == []
    decreases |p.completed|
  {
    hide Inv, Deliver, SameJobs;
    SameJobsRefl(p);
    if p.completed != [] {
      DeliverOk(w, p);
      DeliverSameJobs(w, p);
      DrainOk(w, Deliver(w, p));
      SameJobsTrans(p, Deliver(w, p), Drain(w, p));
    }
  }

  lemma {:induction false} FireSleepersOk(w: World, p: Pump, now: int)
    requires Inv(w, p, [], None)
    ensures var q := FireSleepers(w, p, now);
      && Inv(w, q, [], None) && SameJobs(p, q)
      && forall k | 0 <= k < |q.sleepers| :: q.sleepers[k].at > now
    decreases |p.sleepers|
  {
    hide FireSleeper, SameJobs;
    SameJobsRefl(p);
    if p.sleepers == [] || p.sleepers[0].at > now {
      assert SleepersSorted(p.sleepers);
    } else {
      hide Inv;
      FireSleeperOk(w, p);
      FireSleeperSameJobs(w, p);
      FireSleepersOk(w, FireSleeper(w, p), now);
      SameJobsTrans(p, FireSleeper(w, p), FireSleepers(w, p, now));
    }
  }

  lemma {:induction false} FireDeadlinesOk(w: World, p: Pump, now: int)
    requires Inv(w, p, [], None) && DeadlinesKnown(p)
    ensures var q := FireDeadlines(p, now);
      && Inv(w, q, [], None) && SameJobs(p, q) && q.sleepers == p.sleepers
      && forall k | 0 <= k < |q.waiters| && q.waiters[k].active && q.waiters[k].deadline.Some? ::
         q.waiters[k].deadline.value > now
    decreases |p.deadlines|
  {
    hide Inv, FireDeadline, SameJobs;
    SameJobsRefl(p);
    if p.deadlines == [] || p.deadlines[0].at > now {
      DeadlinesAhead(w, p, now);
    } else {
      FireDeadlineOk(w, p);
      FireDeadlineSameJobs(p);
      FireDeadlinesOk(w, FireDeadline(p), now);
      SameJobsTrans(p, FireDeadline(p), FireDeadlines(p, now));
    }
  }

  lemma DeadlinesAhead(w: World, p: Pump, now: int)
    requires Inv(w, p, [], None) && (p.deadlines == [] || p.deadlines[0].at > now)
    ensures forall k | 0 <= k < |p.waiters| && p.waiters[k].active && p.waiters[k].deadline.Some? ::
      p.waiters[k].deadline.value > now
  {
    forall k | 0 <= k < |p.waiters| && p.waiters[k].active && p.waiters[k].deadline.Some?
      ensures p.waiters[k].deadline.value > now
    {
      assert HasDeadline(p.deadlines, k);
      var d :| 0 <= d < |p.deadlines| && p.deadlines[d].waiter == k;
      assert p.deadlines[0].at <= p.deadlines[d].at;
    }
  }

  /** No sleeper is woken early: exactly the leading sleepers that are due leave the heap. */
  lemma {:induction false} SleepersNotEarly(w: World, p: Pump, now: int) returns (n: nat)
    ensures n <= |p.sleepers| && FireSleepers(w, p, now).sleepers == p.sleepers[n..]
    ensures forall k | 0 <= k < n :: p.sleepers[k].at <= now
    decreases |p.sleepers|
  {
    if p.sleepers == [] || p.sleepers[0].at > now {
      n := 0;
    } else {
      var q := FireSleeper(w, p);
      var m := SleepersNotEarly(w, q, now);
      n := m + 1;
      assert q.sleepers == p.sleepers[1..];
      assert p.sleepers[1..][m..] == p.sleepers[n..];
    }
  }

  /** No wait times out early: a waiter that expiring retires had a deadline that is due. */
  lemma {:induction false} DeadlinesNotEarly(w: World, p: Pump, now: int, k: nat)
    requires Inv(w, p, [], None) && DeadlinesKnown(p) && k < |p.waiters| && p.waiters[k].active
    ensures k < |FireDeadlines(p, now).waiters|
    ensures !FireDeadlines(p, now).waiters[k].active ==>
      p.waiters[k].deadline.Some? && p.waiters[k].deadline.value <= now
    decreases |p.deadlines|
  {
    hide Inv, FireDeadline;
    if p.deadlines != [] && p.deadlines[0].at <= now {
      var q := FireDeadline(p);
      FireDeadlineOk(w, p);
      DeadlineOf(w, p);
      FireDeadlineFrame(p, k);
      if q.waiters[k].active { DeadlinesNotEarly(w, q, now, k); } else { FireDeadlinesSize(q, now); }
    }
  }

  lemma FireDeadlineFrame(p: Pump, k: nat)
    requires DeadlinesKnown(p) && p.deadlines != [] && k < |p.waiters|
    ensures var q := FireDeadline(p);
      |q.waiters| == |p.waiters| && (q.waiters[k] == p.waiters[k] || p.deadlines[0].waiter == k)
      && (q.waiters[k].deadline == p.waiters[k].deadline)
  {
  }

  lemma {:induction false} FireDeadlinesSize(p: Pump, now: int)
    requires DeadlinesKnown(p)
    ensures |FireDeadlines(p, now).waiters| == |p.waiters|
    decreases |p.deadlines|
  {
    if p.deadlines != [] && p.deadlines[0].at <= now { FireDeadlinesSize(FireDeadline(p), now); }
  }

  lemma DeadlineOf(w: World, p: Pump)
    requires Inv(w, p, [], None) && p.deadlines != []
    ensures p.deadlines[0].waiter < |p.waiters| && p.waiters[p.deadlines[0].waiter].deadline == Some(p.deadlines[0].at)
  {
  }

  lemma {:induction false} PollListOk(w: World, p: Pump, list: seq<nat>)
    requires Inv(w, p, [], None) && Known(p, list)
    ensures Inv(w, PollList(w, p, list), [], None) && SameJobs(p, PollList(w, p, list))
    decreases |list|
  {
    hide Inv, PollWaiter, SameJobs;
    SameJobsRefl(p);
    if list != [] {
      PollWaiterOk(w, p, list[0]);
      PollWaiterSameJobs(w, p, list[0]);
      PollListOk(w, PollWaiter(w, p, list[0]), list[1..]);
      SameJobsTrans(p, PollWaiter(w, p, list[0]), PollList(w, p, list));
    }
  }

  /** Polling one future leaves alone the other futures and the sleepers. */
  lemma PollFutureFrame(w: World, p: Pump, f: Fut)
    requires f in p.futureWaiters && Known(p, p.futureWaiters[f])
    ensures var m, q := PollList(w, p, p.futureWaiters[f]), PollFuture(w, p, f);
      && q == m.(futureWaiters := q.futureWaiters) && q.sleepers == p.sleepers
      && forall g | g in p.futureWaiters && g != f :: g in q.futureWaiters && q.futureWaiters[g] == p.futureWaiters[g]
  {
    PollListKeeps(w, p, p.futureWaiters[f]);
  }

  lemma PollFutureOk(w: World, p: Pump, f: Fut)
    requires Inv(w, p, [], None) && f in p.futureWaiters && Known(p, p.futureWaiters[f])
    ensures Inv(w, PollFuture(w, p, f), [], None) && SameJobs(p, PollFuture(w, p, f))
  {
    hide Inv, SameJobs, PollList, ActiveOnly;
    PollListKeeps(w, p, p.futureWaiters[f]);
    PollListOk(w, p, p.futureWaiters[f]);
    var q := PollList(w, p, p.futureWaiters[f]);
    PruneOk(w, q, f);
    PruneSameJobs(q, f);
    SameJobsTrans(p, q, Prune(q, f));
  }

  lemma PruneSameJobs(p: Pump, f: Fut)
    requires f in p.futureWaiters && Known(p, p.futureWaiters[f])
    ensures SameJobs(p, Prune(p, f))
  {
  }

  lemma {:induction false} PollSleepersOk(w: World, p: Pump, j: nat)
    requires Inv(w, p, [], None) && j <= |p.sleepers|
    ensures Inv(w, PollSleepers(w, p, j), [], None) && SameJobs(p, PollSleepers(w, p, j))
    decreases |p.sleepers| - j
  {
    hide Inv, PollSleeper, SameJobs;
    SameJobsRefl(p);
    if j < |p.sleepers| {
      PollSleeperOk(w, p, j);
      PollSleeperSameJobs(w, p, j);
      var q := PollSleeper(w, p, j);
      PollSleepersOk(w, q, if |q.sleepers| == |p.sleepers| then j + 1 else j);
      SameJobsTrans(p, q, PollSleepers(w, p, j));
    }
  }

  /** The first half of `_poll_cancellation`, for the futures in the given order. */
  ghost function PollFutures(w: World, p: Pump, order: seq<Fut>): Pump
    decreases |order|
  {
    if order == [] then p
    else if order[0] in p.futureWaiters && Known(p, p.futureWaiters[order[0]]) then
      PollFutures(w, PollFuture(w, p, order[0]), order[1..])
    else PollFutures(w, p, order[1..])
  }

  /** A deadline whose waiter is no longer active can leave the heap unseen. */
  lemma DropStaleOk(w: World, p: Pump)
    requires Inv(w, p, [], None) && p.deadlines != [] && p.deadlines[0].waiter < |p.waiters|
    requires !p.waiters[p.deadlines[0].waiter].active
    ensures Inv(w, p.(deadlines := p.deadlines[1..]), [], None)
  {
    var k := p.deadlines[0].waiter;
    assert p.waiters[k := p.waiters[k].(active := false)] == p.waiters;
    hide PlacesOk, LedgerOk, RegistryOk, SignalsOk;
    RegistryPopDeadline(p.waiters, p.futureWaiters, p.deadlines);
  }

  /** Resuming a fiber changes no other fiber's ending, and never undoes one. */
  ghost predicate JobsAdvance(p: Pump, q: Pump) {
    && |q.fibers| == |p.fibers|
    && (forall i | 0 <= i < |p.fibers| ::
       q.fibers[i].item == p.fibers[i].item && (p.fibers[i].done ==> q.fibers[i].done))
    && q.active <= p.active
    && (p.firstError.Some? ==> q.firstError == p.firstError) && p.failed <= q.failed
  }

  lemma ParkAdvances(p: Pump, i: nat, fut: Fut, deadline: Option<int>, guarded: bool)
    requires i < |p.fibers|
    ensures JobsAdvance(p, ParkOnFuture(p, i, fut, deadline, guarded))
  {
    hide PushDeadline;
  }

  lemma SettleAdvances(w: World, p: Pump, i: nat)
    requires i < |p.fibers|
    ensures JobsAdvance(p, Settle(w, p, i))
  {
    hide ParkOnFuture, PushSleeper;
    match Current(w, p.fibers[i])
    case AwaitFuture(fut, deadline, guarded) => ParkAdvances(p, i, fut, deadline, guarded);
    case _ =>
  }

  lemma ResumeNextAdvances(w: World, p: Pump)
    requires ReadyShaped(p) && p.ready != []
    ensures JobsAdvance(p, ResumeNext(w, p))
  {
    hide Settle;
    var i, r := p.ready[0].fiber, p.ready[0].resume;
    SettleAdvances(w, Hand(p.(ready := p.ready[1..]), i, r), i);
  }

  lemma LaunchAdvances(w: World, p: Pump, item: Item)
    ensures var q := Launch(w, p, item);
      && Items(q.fibers) == Items(p.fibers) + [item] && q.active <= p.active + 1
      && (p.firstError.Some? ==> q.firstError == p.firstError) && p.failed <= q.failed
  {
    hide Settle;
    SettleAdvances(w, NewState(p, item), |p.fibers|);
  }

  lemma ItemsKept(p: Pump, q: Pump)
    requires JobsAdvance(p, q)
    ensures Items(q.fibers) == Items(p.fibers) && q.active <= p.active
    ensures p.firstError.Some? ==> q.firstError == p.firstError
    ensures p.failed <= q.failed
  {
  }

  lemma SameJobsAdvance(p: Pump, q: Pump)
    requires SameJobs(p, q)
    ensures JobsAdvance(p, q)
  {
  }

  lemma AdvanceTrans(p: Pump, q: Pump, r: Pump)
    requires JobsAdvance(p, q) && JobsAdvance(q, r)
    ensures JobsAdvance(p, r)
  {
  }

  lemma AdvanceRefl(p: Pump)
    ensures JobsAdvance(p, p)
  {
  }

  /** A timer goes in behind all that are due no later than it, so timers due at the same time fire in the order in
      which they were set. */
  lemma {:induction false} SleeperPlace(s: seq<Sleeper>, e: Sleeper) returns (k: nat)
    requires SleepersSorted(s)
    ensures k <= |s| && PushSleeper(s, e) == s[..k] + [e] + s[k..]
    ensures forall j | 0 <= j < |s| :: s[j].at <= e.at <==> j < k
  {
    if s == [] || e.at < s[0].at { return 0; }
    var rest := SleeperPlace(s[1..], e);
    k := rest + 1;
    assert s[..k] == [s[0]] + s[1..][..rest];
  }

  lemma {:induction false} DeadlinePlace(s: seq<Deadline>, e: Deadline) returns (k: nat)
    requires DeadlinesSorted(s)
    ensures k <= |s| && PushDeadline(s, e) == s[..k] + [e] + s[k..]
    ensures forall j | 0 <= j < |s| :: s[j].at <= e.at <==> j < k
  {
    if s == [] || e.at < s[0].at { return 0; }
    var rest := DeadlinePlace(s[1..], e);
    k := rest + 1;
    assert s[..k] == [s[0]] + s[1..][..rest];
  }
}
