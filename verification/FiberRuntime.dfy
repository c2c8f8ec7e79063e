/**
 The fiber runtime as the source writes it: one object whose methods update their fields in place.
 Each servicing method is proved equal to its function in `FiberModel`; `RunSource` is then proved
 to conserve items, to stop admission at the first error, to raise only when every started fiber
 has ended, to return what running the items one after another returns, and to come to an end when
 the futures it waits for do.
 */
module FiberRuntimeClass {
  import opened Prelude
  import opened FiberModel
  import opened FiberInvariant
  import opened FiberSteps
  import opened FiberService
  import opened FiberPolling
  import opened FiberProgress
  import opened FiberTurns

  const MIN_ADMISSION_BURST: nat := 16

  /** A snapshot iterable, which ends after its items or raises there; or a source pulled repeatedly: `give(n, c)`
      is what its n-th pull for at most `c` items returns, `None` when it raises, and `change(n)` what the n-th wait
      for a change reports. */
  datatype Source =
    | Snapshot(items: seq<Item>, raises: bool)
    | Refreshable(give: (nat, nat) -> Option<seq<Item>>, change: nat -> bool)

  /** How one turn of the pump's loop ends: go on at once, wait for the event, leave the loop, raise the
      first error, or let an exception of the limit provider or of the source through. */
  datatype Turned = Again | Wait | Finish | Fail(e: Err) | Abort

  /** A turn in which no fiber was switched in: the pump at its start and end, the time at its end, which reading of
      the clock it began with, and whether the source reported a change. */
  datatype Idle = Idle(before: Pump, after: Pump, clock: int, read: nat, changed: bool)

  datatype Outcome = Returned(values: seq<int>) | Raised(e: Err) | Aborted | StillRunning

  class FiberRuntime {
    const w: World
    /** The readings of the clock, and of the limit provider; a negative limit stands for one it raises at. */
    const time: nat -> int
    const limits: nat -> int
    const pollInterval: int
    const maxBurst: int
    const serviceInterval: int

    /** The runtime's fields, and those of the producer threads, in one record. */
    var p: Pump
    var nextPoll: int

    /** How often the clock, the limit, the source and its wait for a change have been asked. */
    var ticks: nat
    var limitReads: nat
    var pulls: nat
    var probes: nat

    // The locals of `run_source` that its inner functions share, and a record of what was pulled; `early` is
    // what was pulled before the first error.
    var clock: int
    var admissionBurst: int
    var position: nat
    var sourceExhausted: bool
    ghost var pulled: seq<Item>
    ghost var abandoned: seq<Item>
    ghost var lost: seq<Item>
    ghost var early: seq<Item>
    ghost var zeroLimit: bool
    /** The turns in which no fiber was switched in. */
    ghost var idle: seq<Idle>

    ghost predicate Valid()
      reads this
    {
      Inv(w, p, [], None) && !p.rechecking && 1 <= maxBurst && 1 <= serviceInterval && 1 <= admissionBurst <= maxBurst
    }

    /** Time has not gone back since. */
    ghost predicate Later(earlier: int, read: nat)
      reads this`clock, this`ticks
    {
      earlier <= clock && read <= ticks
    }

    /** The constructor's own checks are in `Create`. */
    constructor (w: World, time: nat -> int, limits: nat -> int, pollInterval: int, startBurst: int, maxBurst: int,
        serviceInterval: int)
      requires startBurst >= 1 && maxBurst >= 1 && serviceInterval >= 1
      ensures Valid() && p == EMPTY_PUMP && this.w == w && this.time == time && this.limits == limits && fresh(this)
      ensures pulled == abandoned == lost == early == [] && position == 0 && !sourceExhausted && !zeroLimit
      ensures admissionBurst == Min(startBurst, maxBurst) && clock == time(0) && nextPoll == time(0) + pollInterval
      ensures this.pollInterval == pollInterval && this.maxBurst == maxBurst && this.serviceInterval == serviceInterval
      ensures ticks == 1 && limitReads == pulls == probes == 0 && idle == []
    {
      this.w, this.time, this.limits := w, time, limits;
      this.pollInterval, this.maxBurst, this.serviceInterval := pollInterval, maxBurst, serviceInterval;
      p, nextPoll := EMPTY_PUMP, time(0) + pollInterval;
      clock, admissionBurst, position, sourceExhausted := time(0), Min(startBurst, maxBurst), 0, false;
      ticks, limitReads, pulls, probes := 1, 0, 0, 0;
      pulled, abandoned, lost, early, zeroLimit, idle := [], [], [], [], false, [];
      new;
      EmptyInv(w);
    }

    /** Construction with the source's checks; the two settings of the state writer are checked and otherwise
        belong to the pause before admission. */
    static method Create(w: World, time: nat -> int, limits: nat -> int, pollInterval: int, startBurst: int,
                         maxBurst: int, serviceInterval: int, stateWriterInterval: int, pressureWait: int)
      returns (runtime: FiberRuntime?)
      ensures runtime == null <==>
        || pollInterval <= 0 || startBurst < 1 || maxBurst < 1 || serviceInterval < 1
        || stateWriterInterval < 1 || pressureWait < 0
      ensures runtime != null ==>
        && fresh(runtime) && runtime.Valid() && runtime.p == EMPTY_PUMP
        && runtime.admissionBurst == Min(startBurst, maxBurst) && runtime.maxBurst == maxBurst
        && runtime.serviceInterval == serviceInterval && runtime.pollInterval == pollInterval
        && runtime.clock == time(0) && runtime.nextPoll == time(0) + pollInterval
    {
      if pollInterval <= 0 || startBurst < 1 || maxBurst < 1 || serviceInterval < 1 { return null; }
      if stateWriterInterval < 1 || pressureWait < 0 { return null; }
      runtime := new FiberRuntime(w, time, limits, pollInterval, startBurst, maxBurst, serviceInterval);
    }

    // ---- switching ---------------------------------------------------------------------------

    /** Switches fiber `i` in, with `resume` unless it is just starting, and files what it yields. */
    method ResumeState(i: nat, resume: Option<Resume>)
      requires i < |p.fibers|
      modifies this`p
      ensures p ==
        if resume.Some? then FiberModel.ResumeState(w, old(p), i, resume.value)
        else if old(p).fibers[i].done then old(p) else Settle(w, old(p), i)
    {
      hide FiberModel.Settle;
      if p.fibers[i].done { return; }
      if resume.Some? {
        p := p.(fibers := p.fibers[i := p.fibers[i].(history := p.fibers[i].history + [resume.value])]);
      }
      FileYield(i);
    }

    /** What the fiber yields when it is switched in. */
    method FileYield(i: nat)
      requires i < |p.fibers|
      modifies this`p
      ensures p == FiberModel.Settle(w, old(p), i)
    {
      hide ParkOnFuture, PushSleeper;
      var fiber := p.fibers[i];
      var yielded := w.runOne(fiber.item, fiber.history);
      match yielded
      case Raise(error) =>
        p := p.(fibers := p.fibers[i := fiber.(done := true)], active := p.active - 1,
                firstError := if p.firstError.Some? then p.firstError else Some(error), failed := p.failed + [i]);
      case Return(value) =>
        p := p.(fibers := p.fibers[i := fiber.(done := true)], active := p.active - 1,
          results := p.results[i := value]);
      case AwaitFuture(fut, deadline, guarded) =>
        AwaitFuture(i, fut, deadline, guarded);
      case Sleep(until, guarded) =>
        p := p.(fibers := p.fibers[i := fiber.(token := fiber.token + 1)], serial := p.serial + 1);
        p := p.(sleepers := PushSleeper(p.sleepers, Sleeper(until, p.serial, i, fiber.token + 1, guarded)));
      case Unsupported =>
        p := p.(fibers := p.fibers[i := fiber.(done := true)], active := p.active - 1,
                firstError := if p.firstError.Some? then p.firstError else Some(UnsupportedYield),
                failed := p.failed + [i]);
    }

    /** The future branch of `_resume_state`. */
    method AwaitFuture(i: nat, fut: Fut, deadline: Option<int>, guarded: bool)
      requires i < |p.fibers|
      modifies this`p
      ensures p == ParkOnFuture(old(p), i, fut, deadline, guarded)
    {
      hide PushDeadline;
      var token, k := p.fibers[i].token + 1, |p.waiters|;
      var list: seq<nat> := [];
      if fut in p.futureWaiters {
        list := p.futureWaiters[fut];
      } else if fut in p.finished {
        p := p.(completed := p.completed + [fut], wake := true);
      } else {
        p := p.(callbacks := p.callbacks + multiset{fut});
      }
      p := p.(fibers := p.fibers[i := p.fibers[i].(token := token, pending := Some(fut))],
              waiters := p.waiters + [Waiter(i, token, fut, deadline, guarded, true)],
              futureWaiters := p.futureWaiters[fut := list + [k]]);
      if deadline.Some? {
        p := p.(serial := p.serial + 1);
        p := p.(deadlines := PushDeadline(p.deadlines, Deadline(deadline.value, p.serial, k)));
      }
    }

    // ---- the producer threads ----------------------------------------------------------------

    /** Anything the producers may do between two steps of the pump. */
    method Interfere()
      requires Inv(w, p, [], None)
      modifies this`p
      ensures Inv(w, p, [], None) && ProducersOnly(old(p), p)
    {
      hide Inv;
      var steps: nat := *;
      while steps > 0
        invariant Inv(w, p, [], None) && ProducersOnly(old(p), p)
      {
        ghost var before := p;
        var which: nat, f: Fut := *, *;
        if which == 0 && f !in p.finished {
          StepOk(w, p, FutureDone(f));
          p := p.(finished := p.finished + {f});
        } else if which == 1 && f in p.finished && f in p.callbacks {
          StepOk(w, p, CallbackPut(f));
          p := p.(callbacks := p.callbacks - multiset{f}, completed := p.completed + [f], setters := p.setters + 1);
        } else if which == 2 && p.setters > 0 {
          StepOk(w, p, CallbackSet);
          p := p.(setters := p.setters - 1, wake := true);
        }
        steps := steps - 1;
      }
    }

    // ---- completed futures -------------------------------------------------------------------

    method DrainQueue()
      requires ListsKnown(p)
      modifies this`p
      ensures p == Drain(w, old(p))
    {
      while p.completed != []
        invariant ListsKnown(p) && Drain(w, p) == Drain(w, old(p))
        decreases |p.completed|
      {
        ghost var before := p;
        var fut := p.completed[0];
        p := p.(completed := p.completed[1..]);
        if fut in p.futureWaiters {
          var list := p.futureWaiters[fut];
          assert Known(before, list);
          p := p.(futureWaiters := p.futureWaiters - {fut});
          DeliverTo(list, w.outcome(fut));
        }
        assert p == Deliver(w, before);
      }
    }

    /** Clears the event and sets it again if a completion slipped in; `slipped` is what the producers
        made of the state in between. */
    method ClearAndRecheck() returns (ghost slipped: Pump)
      requires Inv(w, p, [], None)
      modifies this`p
      ensures ProducersOnly(ClearWake(old(p)), slipped) && p == Recheck(slipped)
      ensures Inv(w, p, [], None)
    {
      ClearRecheckOk(w, p);
      hide Inv;
      p := p.(wake := false, rechecking := true);
      Interfere();
      slipped := p;
      ClearRecheckOk(w, p);
      if p.completed != [] { p := p.(wake := true); }
      p := p.(rechecking := false);
    }

    /** Delivers every queued completion, then clears the event. */
    method ProcessFutures() returns (ghost slipped: Pump)
      requires Valid()
      modifies this`p
      ensures ListsKnown(old(p)) && ProducersOnly(ClearWake(Drain(w, old(p))), slipped) && p == Recheck(slipped)
      ensures Valid() && SameJobs(old(p), p) && Delivered(w, old(p), p)
      ensures p.callbacks + multiset(p.completed) == old(p).callbacks
      ensures p.completed != [] ==> p.wake
    {
      hide Inv, Drain, SameJobs;
      InvShape(w, p);
      DrainOk(w, p);
      DrainOwes(w, p);
      DrainDeliversAll(w, p);
      DrainQueue();
      slipped := ClearAndRecheck();
      RecheckedSameJobs(old(p), Drain(w, old(p)), p);
    }

    /** Hands `resume` to each waiter of a list whose fiber is still in that very wait. */
    method DeliverTo(list: seq<nat>, resume: Resume)
      requires Known(p, list)
      modifies this`p
      ensures p == WakeAll(old(p), list, resume)
    {
      for j := 0 to |list|
        invariant |p.waiters| == |old(p).waiters| && WakeAll(p, list[j..], resume) == WakeAll(old(p), list, resume)
      {
        assert list[j..][0] == list[j] && list[j..][1..] == list[j + 1..];
        WakeWaiter(list[j], resume);
      }
    }

    method WakeWaiter(k: nat, resume: Resume)
      requires k < |p.waiters|
      modifies this`p
      ensures p == Wake(old(p), k, resume)
    {
      var waiter := p.waiters[k];
      p := p.(waiters := p.waiters[k := waiter.(active := false)]);
      var i := waiter.fiber;
      if i >= |p.fibers| || p.fibers[i].done || p.fibers[i].token != waiter.token
          || p.fibers[i].pending != Some(waiter.fut)
      {
        return;
      }
      p := p.(fibers := p.fibers[i := p.fibers[i].(pending := None)], ready := p.ready + [Ready(i, resume)]);
    }

    // ---- deadlines ---------------------------------------------------------------------------

    /** One call of a fiber's cancellation check, when it brought one. */
    method Check(guarded: bool) returns (verdict: Option<Err>)
      modifies this`p
      ensures verdict == Verdict(w, old(p), guarded) && p == AfterCheck(old(p), guarded)
    {
      if !guarded { return None; }
      verdict := w.check(p.calls);
      p := p.(calls := p.calls + 1);
    }

    method RouseSleepers(now: int)
      modifies this`p
      ensures p == FireSleepers(w, old(p), now)
    {
      while p.sleepers != [] && p.sleepers[0].at <= now
        invariant FireSleepers(w, p, now) == FireSleepers(w, old(p), now)
        decreases |p.sleepers|
      {
        ghost var before := p;
        var e := p.sleepers[0];
        p := p.(sleepers := p.sleepers[1..]);
        if e.fiber < |p.fibers| && !p.fibers[e.fiber].done && p.fibers[e.fiber].token == e.token {
          var verdict := Check(e.guarded);
          p := p.(ready := p.ready + [Ready(e.fiber, if verdict.Some? then Failure(verdict.value) else Plain)]);
        }
        assert p == FireSleeper(w, before);
      }
    }

    method ExpireDeadlines(now: int)
      requires DeadlinesKnown(p)
      modifies this`p
      ensures p == FireDeadlines(old(p), now)
    {
      while p.deadlines != [] && p.deadlines[0].at <= now
        invariant DeadlinesKnown(p) && FireDeadlines(p, now) == FireDeadlines(old(p), now)
        decreases |p.deadlines|
      {
        ghost var before := p;
        var k := p.deadlines[0].waiter;
        p := p.(deadlines := p.deadlines[1..]);
        if p.waiters[k].active {
          WakeWaiter(k, Failure(FutureTimeout));
        }
        assert p == FireDeadline(before);
      }
    }

    /** After it, no sleeper and no active waiter is overdue. */
    method ProcessDeadlines(now: int)
      requires Valid()
      modifies this`p
      ensures var q := FireSleepers(w, old(p), now); DeadlinesKnown(q) && p == FireDeadlines(q, now)
      ensures Valid() && SameJobs(old(p), p) && NothingDue(p, now)
    {
      hide Inv, SameJobs;
      FireSleepersOk(w, p, now);
      RouseSleepers(now);
      InvShape(w, p);
      FireDeadlinesOk(w, p, now);
      SameJobsTrans(old(p), p, FireDeadlines(p, now));
      KeepsPhase(old(p), FireDeadlines(p, now));
      ExpireDeadlines(now);
    }

    // ---- cancellation ------------------------------------------------------------------------

    /** Polls every waiter and then every sleeper; `order` is the order the table of futures is walked in. */
    method PollCancellation(order: seq<Fut>)
      requires Valid()
      requires forall a, b | 0 <= a < b < |order| :: order[a] != order[b]
      requires forall f :: f in order <==> f in p.futureWaiters
      modifies this`p
      ensures p == PollSleepers(w, PollFutures(w, old(p), order), 0)
      ensures Valid() && SameJobs(old(p), p)
    {
      hide Inv, SameJobs, PollSleepers;
      PollAwaiting(order);
      PollSleepersOk(w, p, 0);
      SameJobsTrans(old(p), p, PollSleepers(w, p, 0));
      PollAsleep();
      KeepsPhase(old(p), p);
    }

    method PollAwaiting(order: seq<Fut>)
      requires Inv(w, p, [], None)
      requires forall a, b | 0 <= a < b < |order| :: order[a] != order[b]
      requires forall f :: f in order <==> f in p.futureWaiters
      modifies this`p
      ensures p == PollFutures(w, old(p), order)
      ensures Inv(w, p, [], None) && SameJobs(old(p), p)
    {
      assert SameJobs(old(p), p);
      hide Inv, SameJobs, PollFuture, PollList;
      for j := 0 to |order|
        invariant Inv(w, p, [], None) && SameJobs(old(p), p)
        invariant forall b | j <= b < |order| :: order[b] in p.futureWaiters
        invariant PollFutures(w, p, order[j..]) == PollFutures(w, old(p), order)
      {
        ghost var before := p;
        assert order[j..][0] == order[j] && order[j..][1..] == order[j + 1..];
        InvShape(w, p);
        PollFutureOk(w, p, order[j]);
        PollFutureFrame(w, p, order[j]);
        PollWaiters(order[j]);
        SameJobsTrans(old(p), before, p);
      }
    }

    /** One waiter of the list: called for, it is woken, found stale or kept waiting. */
    method PollOne(k: nat) returns (waiting: bool)
      requires k < |p.waiters|
      modifies this`p
      ensures p == PollWaiter(w, old(p), k) && waiting == p.waiters[k].active
      ensures |p.waiters| == |old(p).waiters|
      ensures forall j | 0 <= j < |p.waiters| && j != k :: p.waiters[j] == old(p).waiters[j]
    {
      var x := p.waiters[k];
      if !x.active { return false; }
      if x.fiber >= |p.fibers| || p.fibers[x.fiber].done || p.fibers[x.fiber].token != x.token
          || p.fibers[x.fiber].pending != Some(x.fut)
      {
        p := p.(waiters := p.waiters[k := x.(active := false)]);
        return false;
      }
      var verdict := Check(x.guarded);
      if verdict.Some? {
        WakeWaiter(k, Failure(verdict.value));
        return false;
      }
      return true;
    }

    method PollWaiters(f: Fut)
      requires f in p.futureWaiters && Known(p, p.futureWaiters[f]) && Increasing(p.futureWaiters[f])
      modifies this`p
      ensures p == PollFuture(w, old(p), f)
    {
      var list := p.futureWaiters[f];
      ghost var target := PollList(w, p, list);
      var keep: seq<nat> := [];
      for j := 0 to |list|
        invariant |p.waiters| == |old(p).waiters|
        invariant PollList(w, p, list[j..]) == target
        invariant keep == ActiveOnly(p, list[..j])
      {
        ghost var before := p;
        var k := list[j];
        assert list[j..][0] == k && list[j..][1..] == list[j + 1..];
        var waiting := PollOne(k);
        if waiting { keep := keep + [k]; }
        ActiveOnlyStep(before, p, list, j);
      }
      assert list[..|list|] == list;
      PollListKeeps(w, old(p), list);
      p := p.(futureWaiters := if keep != [] then p.futureWaiters[f := keep] else p.futureWaiters - {f});
    }

    /** The sleepers' half: pop everything, keep what is not cancelled, and push it back. */
    method PollAsleep()
      requires Inv(w, p, [], None)
      modifies this`p
      ensures p == PollSleepers(w, old(p), 0)
    {
      hide Inv, PollSleepers;
      var rebuilt: seq<Sleeper> := [];
      ghost var whole := p;
      assert [] + p.sleepers == p.sleepers;
      while p.sleepers != []
        invariant whole == p.(sleepers := rebuilt + p.sleepers)
        invariant PollSleepers(w, whole, |rebuilt|) == PollSleepers(w, old(p), 0)
        decreases |p.sleepers|
      {
        ghost var before, j := whole, |rebuilt|;
        var e, tail := p.sleepers[0], p.sleepers[1..];
        HeapAt(rebuilt, p.sleepers);
        PollSleepersUnfold(w, before, j);
        p := p.(sleepers := tail);
        if e.fiber < |p.fibers| && !p.fibers[e.fiber].done && p.fibers[e.fiber].token == e.token {
          var verdict := Check(e.guarded);
          if verdict.Some? {
            p := p.(ready := p.ready + [Ready(e.fiber, Failure(verdict.value))]);
          } else {
            rebuilt := rebuilt + [e];
          }
        }
        whole := PollSleeper(w, before, j);
      }
      assert rebuilt + [] == rebuilt;
      PollSleepersNone(w, whole);
      p := p.(sleepers := rebuilt);
    }

    /** How long the pump may block: until the next poll, the first sleeper or the first deadline of an
        active waiter, whichever comes first.  Deadlines of retired waiters leave the heap. */
    method NextWaitTimeout(now: int) returns (timeout: int)
      requires Valid()
      modifies this`p
      ensures Valid() && p == old(p).(deadlines := p.deadlines)
      ensures 0 <= timeout <= Max(0, nextPoll - now)
      ensures forall k | 0 <= k < |p.sleepers| :: timeout <= Max(0, p.sleepers[k].at - now)
      ensures forall k | 0 <= k < |p.waiters| && p.waiters[k].active && p.waiters[k].deadline.Some? ::
                timeout <= Max(0, p.waiters[k].deadline.value - now)
      ensures timeout == Max(0, nextPoll - now)
        || (exists k :: 0 <= k < |p.sleepers| && timeout == Max(0, p.sleepers[k].at - now))
           || exists k :: 0 <= k < |p.waiters| && p.waiters[k].active && p.waiters[k].deadline.Some?
                       && timeout == Max(0, p.waiters[k].deadline.value - now)
    {
      timeout := Max(0, nextPoll - now);
      hide Inv;
      TimersSorted(w, p);
      if p.sleepers != [] {
        timeout := Min(timeout, Max(0, p.sleepers[0].at - now));
      }
      var head := DropRetired();
      TimersSorted(w, p);
      if head.Some? {
        timeout := Min(timeout, Max(0, head.value - now));
      }
    }

    /** Pops the deadlines of retired waiters; the first one left, of an active waiter. */
    method DropRetired() returns (head: Option<int>)
      requires Inv(w, p, [], None)
      modifies this`p
      ensures Inv(w, p, [], None) && p == old(p).(deadlines := p.deadlines)
      ensures head.None? <==> p.deadlines == []
      ensures head.Some? ==> head.value == p.deadlines[0].at
                             && p.deadlines[0].waiter < |p.waiters| && p.waiters[p.deadlines[0].waiter].active
    {
      hide Inv;
      while p.deadlines != []
        invariant Inv(w, p, [], None) && p == old(p).(deadlines := p.deadlines)
        decreases |p.deadlines|
      {
        InvShape(w, p);
        var x := p.waiters[p.deadlines[0].waiter];
        if x.active { return Some(p.deadlines[0].at); }
        DropStaleOk(w, p);
        p := p.(deadlines := p.deadlines[1..]);
      }
      head := None;
    }

    // ---- running a source --------------------------------------------------------------------

    /** Some order of the table of futures. */
    method KeyOrder() returns (order: seq<Fut>)
      ensures forall a, b | 0 <= a < b < |order| :: order[a] != order[b]
      ensures forall f :: f in order <==> f in p.futureWaiters
    {
      order := [];
      var rest := p.futureWaiters.Keys;
      while rest != {}
        invariant rest <= p.futureWaiters.Keys
        invariant forall a, b | 0 <= a < b < |order| :: order[a] != order[b]
        invariant forall f :: f in order <==> f in p.futureWaiters && f !in rest
        decreases |rest|
      {
        var f :| f in rest;
        order, rest := order + [f], rest - {f};
      }
    }

    /** Completions, deadlines and, when it is time, cancellation: the block `run_source` repeats.  In between, in
        state `m`, whoever waited for a completion queued before is ready with what it came to, and nothing is due;
        then, when it is time, each guarded wait is decided by its check. */
    method Service() returns (ghost m: Pump)
      requires Valid()
      modifies this`p, this`clock, this`ticks, this`nextPoll
      ensures Valid() && Inv(w, m, [], None) && SameJobs(old(p), m) && SameJobs(m, p)
      ensures clock == Max(old(clock), time(old(ticks))) && ticks == old(ticks) + 1
      ensures Delivered(w, old(p), m) && m.callbacks + multiset(m.completed) <= old(p).callbacks
      ensures NothingDue(m, clock)
      ensures clock < old(nextPoll) ==> p == m && nextPoll == old(nextPoll)
      ensures clock >= old(nextPoll) ==> AllDecided(w, m, p) && nextPoll == clock + pollInterval
    {
      hide Inv, SameJobs, NothingDue, Delivered, AllDecided;
      ServeDue();
      m := p;
      SameJobsRefl(m);
      if clock >= nextPoll {
        var order := KeyOrder();
        CancellationReachesAll(w, p, order);
        PollCancellation(order);
        nextPoll := clock + pollInterval;
      }
    }

    /** Completions, then deadlines. */
    method ServeDue()
      requires Valid()
      modifies this`p, this`clock, this`ticks
      ensures Valid() && SameJobs(old(p), p)
      ensures clock == Max(old(clock), time(old(ticks))) && ticks == old(ticks) + 1
      ensures Delivered(w, old(p), p) && p.callbacks + multiset(p.completed) <= old(p).callbacks
      ensures NothingDue(p, clock)
    {
      hide Inv, SameJobs, NothingDue, Delivered;
      Interfere();
      ProducersSameJobs(old(p), p);
      ghost var p0 := p;
      var _ := ProcessFutures();
      SameJobsTrans(old(p), p0, p);
      ghost var p1 := p;
      var now := time(ticks);
      ticks := ticks + 1;
      clock := Max(clock, now);
      ProcessDeadlines(clock);
      SameJobsTrans(old(p), p1, p);
      DeliveredKept(w, old(p), p0, p1, p);
    }

    /** Resumes at most `maxStates` ready fibers, in queue order. */
    method ResumeReady(maxStates: nat) returns (serviced: nat)
      requires Valid()
      modifies this`p
      ensures Valid() && JobsAdvance(old(p), p)
      ensures serviced <= maxStates && (serviced < maxStates ==> p.ready == [])
      ensures Switches(p.fibers) == Switches(old(p).fibers) + serviced && (serviced == 0 ==> p == old(p))
    {
      hide Inv, JobsAdvance, Switches;
      serviced := 0;
      AdvanceRefl(p);
      while p.ready != [] && serviced < maxStates
        invariant Valid() && JobsAdvance(old(p), p) && serviced <= maxStates
        invariant Switches(p.fibers) == Switches(old(p).fibers) + serviced && (serviced == 0 ==> p == old(p))
      {
        ghost var before := p;
        ResumeFirst();
        AdvanceTrans(old(p), before, p);
        serviced := serviced + 1;
      }
    }

    method ResumeFirst()
      requires Valid() && p.ready != []
      modifies this`p
      ensures Valid() && ReadyShaped(old(p)) && p == ResumeNext(w, old(p)) && JobsAdvance(old(p), p)
      ensures Switches(p.fibers) == Switches(old(p).fibers) + 1
    {
      hide Inv, JobsAdvance, Settle, Switches;
      ghost var before := p;
      InvShape(w, p);
      ResumeSwitches(w, p);
      ResumeNextOk(w, p);
      ResumeNextAdvances(w, p);
      var first := p.ready[0];
      p := p.(ready := p.ready[1..]);
      ResumeState(first.fiber, Some(first.resume));
      ResumePhase(w, before);
    }

    /** Creates a fiber for `item` and runs it up to its first wait. */
    method StartFiber(item: Item)
      requires Valid()
      modifies this`p
      ensures Valid() && p == Launch(w, old(p), item) && Switches(p.fibers) == Switches(old(p).fibers) + 1
    {
      hide Inv, Settle, FiberModel.ResumeState, Switches;
      LaunchSwitches(w, p, item);
      LaunchOk(w, p, item);
      LaunchPhase(w, p, item);
      var i := |p.fibers|;
      p := p.(fibers := p.fibers + [Fiber(item, [], 0, false, None)], active := p.active + 1);
      ResumeState(i, None);
    }

    /** What is known of the source so far: a snapshot is consumed from the front, and only its own end
        marks it exhausted; a refreshable source never gives more than it is asked for. */
    ghost predicate SourceOk(source: Source)
      reads this`position, this`sourceExhausted, this`pulled
    {
      && Modest(source)
      && (source.Snapshot? ==>
            && position <= |source.items| && pulled == source.items[..position]
            && (sourceExhausted ==> position == |source.items| && !source.raises))
    }

    /** Every pulled item was started, abandoned after an error, or lost with a batch whose source raised; and
        nothing was pulled after the first error. */
    ghost predicate Conserved()
      reads this
    {
      && pulled == Items(p.fibers) + abandoned + lost
      && (abandoned != [] ==> p.firstError.Some?)
      && early == pulled
    }

    /** At most `capacity` items.  When a snapshot raises part way, the batch read so far is discarded. */
    method PullItems(source: Source, capacity: int) returns (values: seq<Item>, failed: bool)
      requires SourceOk(source)
      modifies this`position, this`sourceExhausted, this`pulls, this`pulled, this`lost, this`early
      ensures SourceOk(source) && |values| <= Max(0, capacity) && old(pulled) <= pulled
      ensures capacity <= 0 ==> !failed && values == []
      ensures source.Refreshable? ==> sourceExhausted == old(sourceExhausted)
      ensures source.Refreshable? && capacity > 0 ==>
        && pulls == old(pulls) + 1 && (failed <==> source.give(old(pulls), capacity).None?)
        && (!failed ==> source.give(old(pulls), capacity) == Some(values))
      ensures !failed ==> pulled == old(pulled) + values && lost == old(lost)
      ensures failed ==> values == []
      ensures failed && source.Refreshable? ==> pulled == old(pulled) && lost == old(lost)
      ensures source.Snapshot? ==>
        (failed <==> source.raises && capacity > 0 && old(position) + capacity > |source.items|)
      ensures failed && source.Snapshot? ==>
        pulled == old(pulled) + source.items[old(position)..] && lost == old(lost) + source.items[old(position)..]
      ensures !failed && source.Snapshot? && |values| < capacity ==> sourceExhausted
      ensures early == if p.firstError.None? then old(early) + pulled[|old(pulled)|..] else old(early)
    {
      values, failed := [], false;
      assert pulled + values == pulled;
      if capacity <= 0 { return; }
      if source.Refreshable? {
        var given := source.give(pulls, capacity);
        pulls := pulls + 1;
        if given.None? { return [], true; }
        values := given.value;
      } else {
        values, failed := Iterate(source, capacity);
        assert failed ==> source.items[old(position)..position] == source.items[old(position)..];
      }
      pulled := pulled + values;
      if p.firstError.None? { early := early + values; }
      if failed {
        lost := lost + values;
        values := [];
      }
    }

    /** The next items of a snapshot, up to the capacity, its end or its error. */
    method Iterate(source: Source, capacity: nat) returns (values: seq<Item>, failed: bool)
      requires source.Snapshot? && SourceOk(source) && capacity > 0
      modifies this`position, this`sourceExhausted
      ensures old(position) <= position <= |source.items| && values == source.items[old(position)..position]
      ensures |values| <= capacity && (failed ==> position == |source.items|)
      ensures failed <==> source.raises && old(position) + capacity > |source.items|
      ensures !failed && |values| < capacity ==> sourceExhausted
      ensures sourceExhausted ==> position == |source.items| && !source.raises
    {
      values, failed := [], false;
      while |values| < capacity && !sourceExhausted && !failed
        invariant |values| <= capacity && old(position) <= position <= |source.items|
        invariant position == old(position) + |values| && values == source.items[old(position)..position]
        invariant failed ==> source.raises && position == |source.items| && |values| < capacity
        invariant sourceExhausted ==> position == |source.items| && !source.raises
        decreases |source.items| - position, !sourceExhausted, !failed
      {
        if position < |source.items| {
          values, position := values + [source.items[position]], position + 1;
        } else if source.raises {
          failed := true;
        } else {
          sourceExhausted := true;
        }
      }
    }

    /** Services, then resumes: what `run_source` does before and after admission, and between admissions.  If there
        was anything to do for a fiber, one is switched in; if none is, nothing was. */
    method ServiceAndResume()
      requires Valid()
      modifies this`p, this`clock, this`ticks, this`nextPoll
      ensures Valid() && JobsAdvance(old(p), p) && clock == Max(old(clock), time(old(ticks))) && ticks == old(ticks) + 1
      ensures Switches(old(p).fibers) <= Switches(p.fibers)
      ensures HasWork(old(p), Max(old(clock), time(old(ticks)))) ==> Switches(old(p).fibers) < Switches(p.fibers)
      ensures Switches(old(p).fibers) == Switches(p.fibers) ==> Quiet(old(p), p, clock)
    {
      hide Inv, SameJobs, JobsAdvance, NothingDue, Delivered, Switches, HasWork, AllDecided;
      ghost var m := Service();
      ghost var q := p;
      ServicedThrough(w, old(p), m, q, clock);
      SwitchesServiced(old(p), q);
      if HasWork(old(p), clock) { WorkMakesReady(w, old(p), q, clock, clock); }
      var serviced := ResumeReady(serviceInterval);
      SameJobsAdvance(old(p), q);
      AdvanceTrans(old(p), q, p);
    }

    /** Starts the pulled items one by one, servicing in between; the first error abandons the rest. */
    method Admit(values: seq<Item>, servicing: bool)
      requires Valid() && p.firstError.None? && abandoned == [] && lost == []
      requires pulled == Items(p.fibers) + values && early == pulled
      modifies this`p, this`clock, this`ticks, this`nextPoll, this`abandoned
      ensures Valid() && Conserved()
      ensures p.active <= old(p.active) + |values|
      ensures p.firstError.None? ==> abandoned == [] && |p.fibers| == |old(p).fibers| + |values|
      ensures old(p).failed <= p.failed && Later(old(clock), old(ticks))
      ensures Switches(old(p).fibers) + (if values == [] then 0 else 1) <= Switches(p.fibers)
      ensures values == [] ==> p == old(p)
      ensures servicing && p.firstError.None? ==> ticks == old(ticks) + |values| / serviceInterval
    {
      hide Inv, Launch, SameJobs, JobsAdvance, Items, Switches, HasWork, Quiet;
      var j := 0;
      while j < |values|
        invariant 0 <= j <= |values| && Valid() && p.firstError.None? && abandoned == []
        invariant Items(p.fibers) == Items(old(p).fibers) + values[..j]
        invariant p.active <= old(p.active) + j
        invariant old(p).failed <= p.failed && Later(old(clock), old(ticks))
        invariant Switches(old(p).fibers) + (if j == 0 then 0 else 1) <= Switches(p.fibers)
        invariant j == 0 ==> p == old(p)
        invariant servicing ==> ticks == old(ticks) + j / serviceInterval
      {
        QuotientStep(j, serviceInterval);
        LaunchAdvances(w, p, values[j]);
        assert values[..j + 1] == values[..j] + [values[j]];
        StartFiber(values[j]);
        j := j + 1;
        if p.firstError.Some? {
          abandoned := values[j..];
          break;
        }
        if servicing && j % serviceInterval == 0 {
          ghost var p0 := p;
          ServiceAndResume();
          ItemsKept(p0, p);
          if p.firstError.Some? {
            abandoned := values[j..];
            break;
          }
        }
      }
      assert values == values[..j] + values[j..];
    }

    /** The admission part of a turn: asks for what fits under the limit just read, adapts the burst and starts
        what was pulled.  Never more than `limit` fibers are in flight because of it, and with room for one a
        snapshot that has one more gives it. */
    method Admission(source: Source, limit: nat) returns (added: nat, failed: bool)
      requires Valid() && Conserved() && SourceOk(source) && p.firstError.None? && abandoned == [] && lost == []
      modifies this`p, this`clock, this`ticks, this`nextPoll, this`abandoned, this`position, this`sourceExhausted,
               this`pulls, this`pulled, this`lost, this`early, this`admissionBurst
      ensures Valid() && Conserved() && SourceOk(source)
      ensures p.active <= Max(limit, old(p).active)
      ensures !failed ==> lost == [] && (p.firstError.None? ==> abandoned == [])
      ensures failed ==> p == old(p) && abandoned == []
      ensures lost != [] ==> source.Snapshot? && source.raises
      ensures old(p).active < limit && source.Snapshot? && !failed ==> added > 0 || sourceExhausted
      ensures source.Snapshot? && !failed ==>
        added == Min(Max(0, Min(limit - old(p).active, old(admissionBurst))), |source.items| - old(position))
      ensures old(p).failed <= p.failed && Later(old(clock), old(ticks))
        && Switches(old(p).fibers) <= Switches(p.fibers)
      ensures Switches(old(p).fibers) == Switches(p.fibers) && !failed ==> p == old(p) && added == 0
      ensures !failed && p.firstError.None? ==> ticks == old(ticks) + added / serviceInterval
    {
      hide Inv, Items, Switches, Modest;
      var values;
      values, failed := Ask(source, limit);
      added := |values|;
      if !failed { Admit(values, true); }
    }

    /** How many items a turn asks for: what fits and the burst allows, and none while a refreshable source with a
        large limit has room only for a few. */
    function Wanted(source: Source, limit: nat, active: int, burst: int): int {
      var room := Max(0, limit - active);
      if source.Refreshable? && limit >= 64 && active > 0 && 0 < room < Min(32, limit / 8) then 0 else Min(room, burst)
    }

    /** Pulls what a turn wants and adapts the burst. */
    method Ask(source: Source, limit: nat) returns (values: seq<Item>, failed: bool)
      requires SourceOk(source) && 1 <= admissionBurst <= maxBurst
      modifies this`position, this`sourceExhausted, this`pulls, this`pulled, this`lost, this`early, this`admissionBurst
      ensures SourceOk(source) && 1 <= admissionBurst <= maxBurst && (failed ==> values == [])
      ensures |values| <= Max(0, limit - p.active)
      ensures !failed ==> pulled == old(pulled) + values && lost == old(lost)
      ensures lost != old(lost) ==> failed && source.Snapshot? && source.raises
      ensures failed && source.Snapshot? ==>
        pulled == old(pulled) + source.items[old(position)..] && lost == old(lost) + source.items[old(position)..]
      ensures failed && source.Refreshable? ==> pulled == old(pulled) && lost == old(lost)
      ensures old(pulled) <= pulled
      ensures early == if p.firstError.None? then old(early) + pulled[|old(pulled)|..] else old(early)
      ensures source.Snapshot? && !failed ==>
        |values| == Min(Max(0, Min(limit - p.active, old(admissionBurst))), |source.items| - old(position))
      ensures source.Snapshot? && !failed && |values| < Min(limit - p.active, old(admissionBurst)) ==> sourceExhausted
      ensures var wanted := Wanted(source, limit, p.active, old(admissionBurst));
        source.Refreshable? && wanted > 0 && !failed ==> source.give(old(pulls), wanted) == Some(values)
    {
      hide Modest;
      var active := p.active;
      var capacity := Max(0, limit - active);
      var refillFloor := if source.Refreshable? && limit >= 64 then Min(32, Max(1, limit / 8)) else 1;
      var requested := if active > 0 && 0 < capacity < refillFloor then 0 else Min(capacity, admissionBurst);
      values, failed := PullItems(source, requested);
      if failed { return; }
      AdaptBurst(requested, |values|, active + |values| < limit);
    }

    /** A full pull with room left doubles the burst, within its bounds; a short one makes it small again. */
    method AdaptBurst(requested: int, added: nat, room: bool)
      requires 1 <= admissionBurst <= maxBurst && requested <= admissionBurst
      modifies this`admissionBurst
      ensures 1 <= admissionBurst <= maxBurst
      ensures requested > 0 && added == requested && room ==>
        admissionBurst == Min(maxBurst, Max(MIN_ADMISSION_BURST, requested * 2))
      ensures added < requested ==> admissionBurst == Min(MIN_ADMISSION_BURST, maxBurst)
      ensures added >= requested && !(requested > 0 && added == requested && room) ==>
        admissionBurst == old(admissionBurst)
    {
      if requested > 0 && added == requested && room {
        admissionBurst := Min(maxBurst, Max(Min(MIN_ADMISSION_BURST, maxBurst), requested * 2));
      } else if added < requested {
        admissionBurst := Min(MIN_ADMISSION_BURST, maxBurst);
      }
    }

    /** The part of a turn after admission: resume, service, resume. */
    method AfterAdmission()
      requires Valid() && Conserved()
      modifies this`p, this`clock, this`ticks, this`nextPoll
      ensures Valid() && Conserved()
      ensures old(p).firstError.Some? ==> p.firstError == old(p).firstError
      ensures old(p).failed <= p.failed && Later(old(clock), old(ticks))
        && Switches(old(p).fibers) <= Switches(p.fibers)
      ensures Switches(old(p).fibers) == Switches(p.fibers) ==> Quiet(old(p), p, clock)
    {
      hide Inv, Items, JobsAdvance, SameJobs, Switches, HasWork, Quiet;
      var _ := ResumeReady(serviceInterval);
      ghost var p0 := p;
      ServiceAndResume();
      AdvanceTrans(old(p), p0, p);
      ItemsKept(old(p), p);
    }

    /** One turn of the loop of `run_source`.  If there was anything to do for a fiber when it began, it switches one
        in; if it switches none in and the pump goes on, every unfinished fiber waits for something that has not
        happened, no listed item could have been started, and something is unfinished unless the source reported
        a change. */
    method Turn(source: Source) returns (turned: Turned)
      requires Valid() && Conserved() && SourceOk(source) && lost == []
      modifies this`p, this`clock, this`ticks, this`nextPoll, this`abandoned, this`position, this`sourceExhausted,
               this`pulls, this`probes, this`limitReads, this`pulled, this`lost, this`early, this`admissionBurst,
               this`zeroLimit
      ensures Valid() && Conserved() && SourceOk(source)
      ensures lost != [] ==> turned == Abort && source.Snapshot? && source.raises
      ensures old(p).firstError.Some? ==>
        p.firstError == old(p).firstError && pulled == old(pulled) && abandoned == old(abandoned)
      ensures turned.Fail? ==> p.active == 0 && p.firstError == Some(turned.e)
      ensures turned.Finish? ==> p.active == 0 && p.firstError.None?
      ensures turned.Finish? && source.Snapshot? ==> sourceExhausted || zeroLimit
      ensures turned.Wait? && p.completed != [] ==> p.wake || p.setters > 0
      ensures turned.Wait? && p.firstError.None? ==> p.ready == []
      ensures old(p).failed <= p.failed && Later(old(clock), old(ticks))
        && Switches(old(p).fibers) <= Switches(p.fibers)
      ensures time(old(ticks)) <= clock && old(ticks) < ticks
      ensures HasWork(old(p), Max(old(clock), time(old(ticks)))) ==> Switches(old(p).fibers) < Switches(p.fibers)
      ensures (turned.Wait? || turned.Again?) && Switches(old(p).fibers) == Switches(p.fibers) ==>
        && AllWait(old(p), p, clock)
        && (p.active == 0 ==> turned.Again? && source.Refreshable? && source.change(old(probes)))
        && (p.firstError.None? && source.Snapshot? ==> sourceExhausted || limits(old(limitReads)) <= p.active)
    {
      hide Inv, Items, SameJobs, JobsAdvance, Switches, HasWork, Quiet, AllWait, Modest, Conserved, SourceOk;
      BeforeAdmission();
      ghost var p0, clock0 := p, clock;
      var limit, added, aborted := ReadLimit(source);
      if aborted { return Abort; }
      AfterAdmission();
      ghost var p2 := p;
      turned := Conclude(source, limit, added);
      if Switches(old(p).fibers) == Switches(p.fibers) && (turned.Wait? || turned.Again?) {
        QuietTurn(w, old(p), p0, p2, p, clock0, clock);
      }
    }

    /** Unless an error has occurred: reads the limit and admits. */
    method ReadLimit(source: Source) returns (limit: nat, added: nat, aborted: bool)
      requires Valid() && Conserved() && SourceOk(source) && lost == []
      modifies this`p, this`clock, this`ticks, this`nextPoll, this`abandoned, this`position, this`sourceExhausted,
               this`pulls, this`limitReads, this`pulled, this`lost, this`early, this`admissionBurst, this`zeroLimit
      ensures Valid() && Conserved() && SourceOk(source)
      ensures lost != [] ==> aborted && source.Snapshot? && source.raises
      ensures old(p).firstError.Some? ==>
        && !aborted && added == 0 && p == old(p) && pulled == old(pulled) && abandoned == old(abandoned)
      ensures old(p).firstError.None? && !aborted ==>
        && limits(old(limitReads)) == limit && (limit == 0 ==> zeroLimit)
        && (old(p).active < limit && source.Snapshot? ==> added > 0 || sourceExhausted)
      ensures old(p).failed <= p.failed && Later(old(clock), old(ticks))
        && Switches(old(p).fibers) <= Switches(p.fibers)
      ensures Switches(old(p).fibers) == Switches(p.fibers) && !aborted ==> p == old(p) && added == 0
    {
      hide Inv, Items, Switches;
      limit, added, aborted := 0, 0, false;
      if p.firstError.None? {
        var reading := limits(limitReads);
        limitReads := limitReads + 1;
        if reading < 0 { return 0, 0, true; }
        limit := reading;
        zeroLimit := zeroLimit || limit == 0;
        added, aborted := Admission(source, limit);
      }
    }

    /** The part of a turn before admission: service, then resume. */
    method BeforeAdmission()
      requires Valid() && Conserved()
      modifies this`p, this`clock, this`ticks, this`nextPoll
      ensures Valid() && Conserved()
      ensures old(p).firstError.Some? ==> p.firstError == old(p).firstError
      ensures old(p).failed <= p.failed && Later(old(clock), old(ticks))
        && Switches(old(p).fibers) <= Switches(p.fibers)
      ensures time(old(ticks)) <= clock && old(ticks) < ticks
      ensures HasWork(old(p), Max(old(clock), time(old(ticks)))) ==> Switches(old(p).fibers) < Switches(p.fibers)
      ensures Switches(old(p).fibers) == Switches(p.fibers) ==> Quiet(old(p), p, clock)
    {
      hide Inv, Items, SameJobs, JobsAdvance, Switches, HasWork, Quiet;
      ServiceAndResume();
      ItemsKept(old(p), p);
    }

    /** The end of a turn: raise, return, go on at once, or wait. */
    method Conclude(source: Source, limit: nat, added: nat) returns (turned: Turned)
      requires Valid() && Conserved() && SourceOk(source) && lost == []
        && (limit == 0 && p.firstError.None? ==> zeroLimit)
      modifies this`p, this`clock, this`ticks, this`nextPoll, this`abandoned, this`position, this`sourceExhausted,
               this`pulls, this`probes, this`pulled, this`lost, this`early, this`admissionBurst
      ensures Valid() && Conserved() && SourceOk(source)
      ensures lost != [] ==> turned == Abort && source.Snapshot? && source.raises
      ensures old(p).firstError.Some? ==>
        p.firstError == old(p).firstError && pulled == old(pulled) && abandoned == old(abandoned)
      ensures turned.Fail? ==> p.active == 0 && p.firstError == Some(turned.e)
      ensures turned.Finish? ==> p.active == 0 && p.firstError.None?
      ensures turned.Finish? && source.Snapshot? ==> sourceExhausted || zeroLimit
      ensures turned.Wait? && p.completed != [] ==> p.wake || p.setters > 0
      ensures turned.Wait? && p.firstError.None? ==> p.ready == []
      ensures old(p).failed <= p.failed && Later(old(clock), old(ticks))
        && Switches(old(p).fibers) <= Switches(p.fibers)
      ensures turned.Wait? ==>
        clock == old(clock) && p == old(p).(deadlines := p.deadlines) && sourceExhausted == old(sourceExhausted)
      ensures turned.Wait? && p.active == 0 ==>
        && p.firstError.None? && limit > 0
        && if source.Snapshot? then !sourceExhausted else added > 0
      ensures turned.Again? && Switches(old(p).fibers) == Switches(p.fibers) ==>
        && p == old(p) && clock == old(clock) && p.firstError.None? && sourceExhausted == old(sourceExhausted)
        && (p.ready != [] || added > 0
            || (p.active == 0 && source.Refreshable? && source.change(old(probes))))
    {
      hide Inv, Items, Switches;
      if p.firstError.Some? {
        if p.active == 0 { return Fail(p.firstError.value); }
        BlockUntilEvent();
        return Wait;
      }
      if p.active == 0 {
        if limit == 0 { return Finish; }
        if source.Refreshable? && added == 0 {
          turned := Refill(source, limit);
          return;
        }
        if source.Snapshot? && sourceExhausted { return Finish; }
      }
      if p.ready != [] { return Again; }
      if added > 0 && p.active < limit { return Again; }
      BlockUntilEvent();
      return Wait;
    }

    /** Reaching the wait: no queued completion is unannounced. */
    method BlockUntilEvent()
      requires Valid()
      modifies this`p
      ensures Valid() && p == old(p).(deadlines := p.deadlines)
      ensures p.completed != [] ==> p.wake || p.setters > 0
    {
      var _ := NextWaitTimeout(clock);
    }

    /** A refreshable source is probed once more before the pump declares itself quiescent. */
    method Refill(source: Source, limit: nat) returns (turned: Turned)
      requires Valid() && Conserved() && SourceOk(source) && p.firstError.None? && abandoned == [] && lost == []
      requires source.Refreshable? && p.active == 0 && limit > 0
      modifies this`p, this`clock, this`ticks, this`nextPoll, this`abandoned, this`position, this`sourceExhausted,
               this`pulls, this`probes, this`pulled, this`lost, this`early, this`admissionBurst
      ensures Valid() && Conserved() && SourceOk(source)
      ensures lost == []
      ensures turned in {Again, Finish, Abort} && (turned.Finish? ==> p == old(p) && !source.change(old(probes)))
      ensures p.active <= limit
      ensures old(p).failed <= p.failed && Later(old(clock), old(ticks))
        && Switches(old(p).fibers) <= Switches(p.fibers)
      ensures sourceExhausted == old(sourceExhausted)
      ensures var given := source.give(old(pulls), Min(limit, Min(MIN_ADMISSION_BURST, maxBurst)));
        if given.None? then turned.Abort? else pulled == old(pulled) + given.value
      ensures turned.Again? && pulled != old(pulled) ==> admissionBurst == Min(MIN_ADMISSION_BURST, maxBurst)
      ensures turned.Again? && Switches(old(p).fibers) == Switches(p.fibers) ==>
        p == old(p) && clock == old(clock) && source.change(old(probes))
    {
      hide Inv, Items, Switches, Modest;
      var refill, failed := PullItems(source, Min(limit, Min(MIN_ADMISSION_BURST, maxBurst)));
      if failed { return Abort; }
      if refill == [] {
        var changed := source.change(probes);
        probes := probes + 1;
        return if changed then Again else Finish;
      }
      admissionBurst := Min(MIN_ADMISSION_BURST, maxBurst);
      Admit(refill, false);
      return Again;
    }

    /** The results by index. */
    method CollectResults() returns (values: seq<int>)
      requires Valid() && p.active == 0 && p.firstError.None?
      ensures |values| == |p.fibers|
      ensures forall i | 0 <= i < |values| :: i in p.results && values[i] == p.results[i]
    {
      values := [];
      AllDone(p.fibers);
      for i := 0 to |p.fibers|
        invariant |values| == i && forall j | 0 <= j < i :: j in p.results && values[j] == p.results[j]
      {
        if i in p.results {
          values := values + [p.results[i]];
        }
      }
    }

    /**
     `run_source`, for as many turns as are given.  On an error the pump raises only when every started
     fiber has ended, the error being that of the first fiber to have ended in one, and every item it pulled was
     started or abandoned.  On a normal return the values are what running the pulled items one after another gives,
     and a snapshot was pulled to its end unless the limit was read as zero.  It is still running after its turns
     only as far as these were idle, every fiber waiting for something that had not happened, or used up switching
     fibers in.
     */
    method RunSource(source: Source, turns: nat) returns (out: Outcome)
      requires Valid() && p == EMPTY_PUMP && pulled == abandoned == lost == early == [] && idle == []
      requires SourceOk(source) && position == 0 && !sourceExhausted && !zeroLimit
      modifies this
      ensures Valid() && Conserved() && SourceOk(source)
      ensures lost != [] ==> out.Aborted? && source.Snapshot? && source.raises
      ensures out.Raised? ==> FirstToFail(w, p, out.e) && forall i | 0 <= i < |p.fibers| :: p.fibers[i].done
      ensures out.Returned? ==> abandoned == [] && |out.values| == |pulled|
      ensures out.Returned? ==> pulled == Items(p.fibers) && AreDirect(w, p, out.values)
      ensures out.Returned? && source.Snapshot? && !zeroLimit ==> pulled == source.items
      ensures forall k | 0 <= k < |idle| :: IsIdle(w, time, source, idle[k]) && idle[k].read >= k
      ensures out.StillRunning? ==> Spent(w, p, turns, |idle|)
      ensures source.Snapshot? ==> |p.fibers| <= |source.items|
    {
      hide Inv, SameJobs, JobsAdvance, Switches, HasWork, AllWait, FirstToFail, Brief;
      for turn := 0 to turns
        invariant Valid() && Conserved() && SourceOk(source) && lost == []
        invariant turn <= |idle| + Switches(p.fibers)
        invariant |idle| <= turn <= ticks
        invariant forall k | 0 <= k < |idle| :: IsIdle(w, time, source, idle[k]) && idle[k].read >= k
      {
        ghost var before, read := p, ticks;
        ghost var changes := source.Refreshable? && source.change(probes);
        var turned := Turn(source);
        match turned
        case Abort => return Aborted;
        case Fail(e) =>
          InvAllDone(w, p);
          FirstErrorOwn(w, p);
          return Outcome.Raised(e);
        case Finish =>
          var values := CollectResults();
          ReturnedValues(w, p, values);
          return Returned(values);
        case _ =>
          if Switches(before.fibers) == Switches(p.fibers) { idle := idle + [Idle(before, p, clock, read, changes)]; }
      }
      AllSpent(w, p, turns, |idle|);
      return StillRunning;
    }
  }

  /** The turn left every unfinished fiber waiting for something that had not happened, and there was one unless the
      source reported a change. */
  ghost predicate IsIdle(w: World, time: nat -> int, source: Source, x: Idle) {
    && Inv(w, x.after, [], None) && AllWait(x.before, x.after, x.clock) && x.clock >= time(x.read)
    && (x.after.active == 0 ==> source.Refreshable? && x.changed)
  }

  /** All turns that were not idle switched some fiber in, which each fiber is only as often as its controller waits,
      and once to start. */
  ghost predicate Spent(w: World, p: Pump, turns: nat, idle: nat) {
    && turns <= idle + Switches(p.fibers)
    && forall bound: nat | Brief(w, bound) :: turns <= idle + (bound + 1) * |p.fibers|
  }

  /** Every sleep a controller asks for ends by `end`, and from its `n`-th reading on the clock shows no less. */
  ghost predicate SleepsEnd(w: World, time: nat -> int, end: int, n: nat) {
    && (forall item, h | w.runOne(item, h).Sleep? :: w.runOne(item, h).until <= end)
    && forall k | k >= n :: time(k) >= end
  }

  /** A run over a list of items whose controllers wait at most `bound` times, and sleep to an end that the clock
      reaches, does not go on for more than so many turns unless some future is never completed: every idle turn
      after the first `n` began with a pending one. */
  lemma RunEnds(w: World, time: nat -> int, source: Source, p: Pump, turns: nat, idle: seq<Idle>, bound: nat, end: int,
      n: nat)
    requires Spent(w, p, turns, |idle|) && Brief(w, bound) && SleepsEnd(w, time, end, n)
    requires source.Snapshot? && |p.fibers| <= |source.items|
    requires forall k | 0 <= k < |idle| :: IsIdle(w, time, source, idle[k]) && idle[k].read >= k
    requires turns > n + (bound + 1) * |source.items|
    ensures |idle| > n && forall k | n <= k < |idle| :: idle[k].before.callbacks != multiset{}
  {
    MulLeft(bound + 1, |p.fibers|, |source.items|);
    hide Brief, Spent, SleepsEnd, Inv, AllWait;
    forall k | n <= k < |idle| ensures idle[k].before.callbacks != multiset{} {
      IdleAwaits(w, time, source, idle[k], end, n);
    }
  }

  lemma IdleAwaits(w: World, time: nat -> int, source: Source, x: Idle, end: int, n: nat)
    requires IsIdle(w, time, source, x) && source.Snapshot? && SleepsEnd(w, time, end, n) && x.read >= n
    ensures x.before.callbacks != multiset{}
  {
    AllDone(x.after.fibers);
    var i: nat :| i < |x.after.fibers| && !x.after.fibers[i].done;
    SleptToEnd(w, time, x.after, i, x.clock, end, n);
    hide Inv, SleepsPast;
  }

  lemma SleptToEnd(w: World, time: nat -> int, q: Pump, i: nat, now: int, end: int, n: nat)
    requires Inv(w, q, [], None) && SleepsEnd(w, time, end, n) && now >= end
    ensures !SleepsPast(q, i, now)
  {
    forall k | 0 <= k < |q.sleepers| ensures q.sleepers[k].at <= now {
      assert Current(w, q.fibers[q.sleepers[k].fiber]) == Sleep(q.sleepers[k].at, q.sleepers[k].guarded);
    }
  }

  lemma AllSpent(w: World, p: Pump, turns: nat, idle: nat)
    requires Inv(w, p, [], None) && turns <= idle + Switches(p.fibers)
    ensures Spent(w, p, turns, idle)
  {
    hide Inv, Brief, Switches;
    forall bound: nat | Brief(w, bound) ensures turns <= idle + (bound + 1) * |p.fibers| {
      SwitchesBound(w, p, bound);
    }
  }

  /** Some fiber has ended in an error, and `e` is what the first to do so raised, or the error of a value it
      yielded that the pump does not support. */
  ghost predicate FirstToFail(w: World, p: Pump, e: Err) {
    && p.failed != [] && p.failed[0] < |p.fibers| && p.fibers[p.failed[0]].done
    && match Current(w, p.fibers[p.failed[0]])
       case Raise(raised) => e == raised
       case Unsupported => e == UnsupportedYield
       case _ => false
  }

  lemma FirstErrorOwn(w: World, p: Pump)
    requires Inv(w, p, [], None) && p.firstError.Some?
    ensures FirstToFail(w, p, p.firstError.value)
  {
  }

  /** A refreshable source gives no more than it is asked for. */
  ghost predicate Modest(source: Source) {
    source.Refreshable? ==> forall n, c | source.give(n, c).Some? :: |source.give(n, c).value| <= c
  }

  /** Nothing is ready or due, and no completion is queued that was not owed before. */
  ghost predicate Quiet(p: Pump, q: Pump, now: int) {
    && SameJobs(p, q) && q.ready == [] && NothingDue(q, now)
    && q.callbacks + multiset(q.completed) <= p.callbacks
  }

  lemma ServicedThrough(w: World, p: Pump, m: Pump, q: Pump, now: int)
    requires SameJobs(p, m) && SameJobs(m, q) && NothingDue(m, now) && Delivered(w, p, m)
    requires m.callbacks + multiset(m.completed) <= p.callbacks
    ensures SameJobs(p, q) && NothingDue(q, now) && Delivered(w, p, q)
    ensures q.callbacks + multiset(q.completed) <= p.callbacks
  {
    DueStays(m, q, now);
    SameJobsTrans(p, m, q);
  }

  /** A turn through which nothing happened. */
  lemma QuietTurn(w: World, p: Pump, p0: Pump, p2: Pump, q: Pump, early: int, now: int)
    requires Quiet(p, p0, early) && Quiet(p0, p2, now) && q == p2.(deadlines := q.deadlines) && Inv(w, q, [], None)
    ensures AllWait(p, q, now) && q.active == p0.active && q.ready == [] && q.firstError == p0.firstError
  {
    assert q.callbacks + multiset(q.completed) <= p0.callbacks <= p0.callbacks + multiset(p0.completed) <= p.callbacks;
    assert NothingDue(q, now);
    hide Inv, SameJobs;
    IdleMeansAllWait(w, p, q, now);
  }

  /** A snapshot of one item that raises after it: asked for two, the pull fails, and the item is neither
      started nor abandoned. */
  method LoseOneItem(w: World, time: nat -> int, limits: nat -> int) returns (runtime: FiberRuntime)
    ensures runtime.pulled == runtime.lost == [7] && runtime.p.fibers == [] && runtime.abandoned == []
  {
    runtime := new FiberRuntime(w, time, limits, 1, 1, 64, 16);
    var values, failed := runtime.PullItems(Snapshot([7], true), 2);
    assert [7][0..] == [7];
  }

  lemma InvAllDone(w: World, p: Pump)
    requires Inv(w, p, [], None) && p.active == 0
    ensures forall i | 0 <= i < |p.fibers| :: p.fibers[i].done
  {
    AllDone(p.fibers);
  }

  /** Each value is the one sequential execution gives, for every controller none of whose waits was
      disturbed, and for every controller whose value does not depend on such disturbances. */
  ghost predicate AreDirect(w: World, p: Pump, values: seq<int>) {
    && |values| == |p.fibers|
    && forall i | 0 <= i < |p.fibers| :: IsDirect(w, p.fibers[i], values[i])
  }

  ghost predicate IsDirect(w: World, fiber: Fiber, value: int) {
    && (Undisturbed(w, fiber.item, fiber.history) ==> DirectResult(w, fiber.item, value))
    && forall v | DirectResult(w, fiber.item, v)
                  && (Undisturbed(w, fiber.item, fiber.history) || ScheduleProof(w, fiber.item)) :: value == v
  }

  lemma ReturnedValues(w: World, p: Pump, values: seq<int>)
    requires Inv(w, p, [], None) && p.active == 0 && p.firstError.None?
    requires |values| == |p.fibers| && forall i | 0 <= i < |values| :: i in p.results && values[i] == p.results[i]
    ensures AreDirect(w, p, values)
  {
    hide Inv, ScheduleProof, Undisturbed, DirectResult;
    forall i | 0 <= i < |p.fibers| ensures IsDirect(w, p.fibers[i], values[i]) {
      RefinesDirect(w, p, i);
    }
  }

  /** Results no wait of which was disturbed are the direct results, and there are no others. */
  lemma UndisturbedReturn(w: World, p: Pump, values: seq<int>)
    requires AreDirect(w, p, values)
    requires forall i | 0 <= i < |p.fibers| :: Undisturbed(w, p.fibers[i].item, p.fibers[i].history)
    ensures DirectResults(w, Items(p.fibers), values)
    ensures forall direct | DirectResults(w, Items(p.fibers), direct) :: direct == values
  {
    hide Undisturbed, DirectResult;
    forall i | 0 <= i < |p.fibers| ensures DirectResult(w, Items(p.fibers)[i], values[i]) {
      assert IsDirect(w, p.fibers[i], values[i]);
    }
    forall direct | DirectResults(w, Items(p.fibers), direct) ensures direct == values {
      forall i | 0 <= i < |p.fibers| ensures direct[i] == values[i] {
        assert IsDirect(w, p.fibers[i], values[i]) && DirectResult(w, Items(p.fibers)[i], direct[i]);
      }
    }
  }

  /** So where no wait has a deadline and no check raises, a return is what sequential execution gives. */
  lemma QuietReturn(w: World, p: Pump, values: seq<int>)
    requires Inv(w, p, [], None) && AreDirect(w, p, values)
    requires forall n :: w.check(n).None?
    requires forall item, h :: w.runOne(item, h).AwaitFuture? ==> w.runOne(item, h).deadline.None?
    ensures DirectResults(w, Items(p.fibers), values)
    ensures forall direct | DirectResults(w, Items(p.fibers), direct) :: direct == values
  {
    forall i | 0 <= i < |p.fibers| ensures Undisturbed(w, p.fibers[i].item, p.fibers[i].history) {
      NothingDisturbs(w, p.fibers[i].item, p.fibers[i].history);
    }
    hide Inv, AreDirect, Undisturbed, DirectResults;
    UndisturbedReturn(w, p, values);
  }

  /** What was delivered stays delivered, and what is still owed was owed before. */
  lemma DeliveredKept(w: World, p: Pump, p0: Pump, p1: Pump, m: Pump)
    requires ProducersOnly(p, p0) && Delivered(w, p0, p1) && SameJobs(p1, m)
    requires p1.callbacks + multiset(p1.completed) == p0.callbacks
    ensures Delivered(w, p, m) && m.callbacks + multiset(m.completed) <= p.callbacks
  {
    forall i: nat | i < |p.fibers| && p.fibers[i].pending.Some? && p.fibers[i].pending.value in p.completed
      ensures Ready(i, w.outcome(p.fibers[i].pending.value)) in m.ready
    {
      assert p.fibers[i].pending.value in p0.completed;
      assert Ready(i, w.outcome(p.fibers[i].pending.value)) in p1.ready;
    }
  }

  lemma ProducersSameJobs(p: Pump, q: Pump)
    requires ProducersOnly(p, q)
    ensures SameJobs(p, q)
  {
  }

  lemma QuotientStep(j: nat, d: int)
    requires d >= 1
    ensures (j + 1) / d == j / d + if (j + 1) % d == 0 then 1 else 0
  {
    var q, r := j / d, j % d;
    if r + 1 == d {
      DivModUnique(j + 1, d, q + 1, 0);
    } else {
      DivModUnique(j + 1, d, q, r + 1);
    }
  }

  /** The next sleeper of a heap of which a part has been looked at. */
  lemma HeapAt(rebuilt: seq<Sleeper>, sleepers: seq<Sleeper>)
    requires sleepers != []
    ensures var whole, j := rebuilt + sleepers, |rebuilt|;
      && whole[j] == sleepers[0] && whole[..j] + whole[j + 1..] == rebuilt + sleepers[1..]
      && whole == (rebuilt + [sleepers[0]]) + sleepers[1..]
  {
  }

  lemma PollSleepersUnfold(w: World, p: Pump, j: nat)
    requires j < |p.sleepers|
    ensures var q := PollSleeper(w, p, j);
      && (|q.sleepers| == |p.sleepers| || |q.sleepers| == |p.sleepers| - 1)
      && PollSleepers(w, p, j) == PollSleepers(w, q, if |q.sleepers| == |p.sleepers| then j + 1 else j)
  {
    hide PollSleeper;
    PollSleeperFrame(w, p, j);
  }

  lemma PollSleepersNone(w: World, p: Pump)
    ensures PollSleepers(w, p, |p.sleepers|) == p
  {
  }

  /** Both timer heaps are sorted, and every active deadline is in its heap. */
  lemma TimersSorted(w: World, p: Pump)
    requires Inv(w, p, [], None)
    ensures forall k | 0 <= k < |p.sleepers| :: p.sleepers[0].at <= p.sleepers[k].at
    ensures forall k | 0 <= k < |p.waiters| && p.waiters[k].active && p.waiters[k].deadline.Some? ::
              p.deadlines != [] && p.deadlines[0].at <= p.waiters[k].deadline.value
    ensures p.deadlines != [] ==>
      p.deadlines[0].waiter < |p.waiters| && p.waiters[p.deadlines[0].waiter].deadline == Some(p.deadlines[0].at)
  {
    assert SleepersSorted(p.sleepers);
    assert RegistryOk(p.waiters, p.futureWaiters, p.deadlines, []);
    hide PlacesOk, LedgerOk, FailuresOk, SignalsOk, Inv;
    DeadlinesSortedAll(p.waiters, p.futureWaiters, p.deadlines);
  }

  lemma DeadlinesSortedAll(waiters: seq<Waiter>, futureWaiters: map<Fut, seq<nat>>, deadlines: seq<Deadline>)
    requires RegistryOk(waiters, futureWaiters, deadlines, [])
    ensures forall k | 0 <= k < |waiters| && waiters[k].active && waiters[k].deadline.Some? ::
      deadlines != [] && deadlines[0].at <= waiters[k].deadline.value
    ensures deadlines != [] ==>
      deadlines[0].waiter < |waiters| && waiters[deadlines[0].waiter].deadline == Some(deadlines[0].at)
  {
    forall k | 0 <= k < |waiters| && waiters[k].active && waiters[k].deadline.Some?
      ensures deadlines != [] && deadlines[0].at <= waiters[k].deadline.value
    {
      assert HasDeadline(deadlines, k);
      var d :| 0 <= d < |deadlines| && deadlines[d].waiter == k;
      assert deadlines[0].at <= deadlines[d].at;
    }
  }

  lemma SettlePhase(w: World, p: Pump, i: nat)
    requires i < |p.fibers|
    ensures Settle(w, p, i).rechecking == p.rechecking
  {
    hide PushSleeper, PushDeadline;
  }

  lemma ResumePhase(w: World, p: Pump)
    requires ReadyShaped(p) && p.ready != []
    ensures ResumeNext(w, p).rechecking == p.rechecking
  {
    hide Settle;
    var i, r := p.ready[0].fiber, p.ready[0].resume;
    SettlePhase(w, Hand(p.(ready := p.ready[1..]), i, r), i);
  }

  lemma LaunchPhase(w: World, p: Pump, item: Item)
    ensures Launch(w, p, item).rechecking == p.rechecking
  {
    hide Settle;
    SettlePhase(w, NewState(p, item), |p.fibers|);
  }

  /** What a step of a producer thread can change. */
  ghost predicate ProducersOnly(p: Pump, q: Pump) {
    && q == p.(finished := q.finished, callbacks := q.callbacks, completed := q.completed, setters := q.setters,
       wake := q.wake)
    && p.finished <= q.finished && p.completed <= q.completed && q.callbacks <= p.callbacks
    && q.callbacks + multiset(q.completed) == p.callbacks + multiset(p.completed)
  }

  lemma RecheckedSameJobs(p: Pump, q: Pump, r: Pump)
    requires SameJobs(p, q) && r.rechecking == p.rechecking
    requires r == q.(finished := r.finished, callbacks := r.callbacks, completed := r.completed, setters := r.setters,
      wake := r.wake, rechecking := r.rechecking)
    requires r.callbacks + multiset(r.completed) <= q.callbacks + multiset(q.completed)
    ensures SameJobs(p, r)
  {
  }

  lemma KeepsPhase(p: Pump, q: Pump)
    requires SameJobs(p, q)
    ensures q.rechecking == p.rechecking
  {
  }

  lemma {:induction false} ActiveOnlyConcat(p: Pump, s: seq<nat>, k: nat)
    requires Known(p, s + [k])
    ensures Known(p, s) && k < |p.waiters|
    ensures ActiveOnly(p, s + [k]) == ActiveOnly(p, s) + if p.waiters[k].active then [k] else []
  {
    assert (s + [k])[|s|] == k;
    assert forall j | 0 <= j < |s| :: (s + [k])[j] == s[j];
    if s == [] {
      assert ([k])[1..] == [];
    } else {
      assert (s + [k])[1..] == s[1..] + [k];
      ActiveOnlyConcat(p, s[1..], k);
      var head := if p.waiters[s[0]].active then [s[0]] else [];
      var last := if p.waiters[k].active then [k] else [];
      assert ActiveOnly(p, s + [k]) == head + ActiveOnly(p, s[1..] + [k]);
      assert head + (ActiveOnly(p, s[1..]) + last) == head + ActiveOnly(p, s[1..]) + last;
    }
  }

  lemma {:induction false} ActiveOnlyFrame(p: Pump, q: Pump, s: seq<nat>)
    requires Known(p, s) && |q.waiters| == |p.waiters|
    requires forall j | 0 <= j < |s| :: q.waiters[s[j]].active == p.waiters[s[j]].active
    ensures ActiveOnly(q, s) == ActiveOnly(p, s)
  {
    if s != [] { ActiveOnlyFrame(p, q, s[1..]); }
  }

  /** Polling the waiter at position `j` of an increasing list leaves the earlier ones as they were. */
  lemma ActiveOnlyStep(p: Pump, q: Pump, list: seq<nat>, j: nat)
    requires j < |list| && Known(p, list) && Increasing(list) && |q.waiters| == |p.waiters|
    requires forall k | 0 <= k < |p.waiters| && k != list[j] :: q.waiters[k] == p.waiters[k]
    ensures ActiveOnly(q, list[..j + 1])
         == ActiveOnly(p, list[..j]) + if q.waiters[list[j]].active then [list[j]] else []
  {
    assert list[..j + 1] == list[..j] + [list[j]];
    ActiveOnlyFrame(p, q, list[..j]);
    ActiveOnlyConcat(q, list[..j], list[j]);
  }
}
