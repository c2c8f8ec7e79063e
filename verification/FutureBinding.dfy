/**
 A caller's `cancel` racing the loop's `bind_task` on one future.  The cancellation reaches the coroutine
 in every interleaving when the coroutine can start only after it is bound, as on the queued path; on the
 direct path it is missed exactly when the caller finds nothing bound while the coroutine already runs.
 */
module FutureBinding {
  datatype Future = Pending | Running | Cancelled | Done

  datatype Binder = Unbound | Bound(alreadyCancelled: bool) | BindReturned

  datatype Canceller = NotCalled | FutureAsked | TaskRead(bound: bool) | CancelReturned

  /** `requested`: the loop was told to cancel the coroutine.  `overBefore`: the coroutine was over when the caller
      looked.  `missed`: the caller found no task while the future was not cancelled. */
  datatype Race = Race(
    future: Future,
    binder: Binder,
    canceller: Canceller,
    started: bool,
    over: bool,
    requested: bool,
    overBefore: bool,
    missed: bool)

  const START := Race(Pending, Unbound, NotCalled, false, false, false, false, false)

  datatype Step = BindLocked | BindCalls | CancelFuture | CancelLocked | CancelCalls | TaskStarts | TaskEnds

  /** `queued`: the coroutine is created and bound within one callback of the loop. */
  predicate Enabled(queued: bool, r: Race, s: Step) {
    match s
    case BindLocked => r.binder.Unbound?
    case BindCalls => r.binder.Bound?
    case CancelFuture => r.canceller.NotCalled?
    case CancelLocked => r.canceller.FutureAsked?
    case CancelCalls => r.canceller.TaskRead?
    case TaskStarts => !r.started && (queued ==> r.binder.BindReturned?)
    case TaskEnds => r.started && !r.over
  }

  function Apply(queued: bool, r: Race, s: Step): Race
    requires Enabled(queued, r, s)
  {
    match s
    case BindLocked => r.(binder := Bound(r.future.Cancelled?))
    case BindCalls => r.(binder := BindReturned, requested := r.requested || r.binder.alreadyCancelled)
    case CancelFuture => r.(canceller := FutureAsked, future := if r.future.Pending? then Cancelled else r.future)
    case CancelLocked =>
      r.(canceller := TaskRead(!r.binder.Unbound?), missed := r.binder.Unbound? && !r.future.Cancelled?)
    case CancelCalls =>
      r.(canceller := CancelReturned,
         requested := r.requested || (r.canceller.bound && !r.over),
         overBefore := r.canceller.bound && r.over)
    case TaskStarts =>
      r.(started := true, over := r.future.Cancelled?, future := if r.future.Pending? then Running else r.future)
    case TaskEnds => r.(over := true, future := if r.future.Running? then Done else r.future)
  }

  ghost predicate Possible(queued: bool, r: Race, run: seq<Step>)
    decreases |run|
  {
    run == [] || (Enabled(queued, r, run[0]) && Possible(queued, Apply(queued, r, run[0]), run[1..]))
  }

  ghost function After(queued: bool, r: Race, run: seq<Step>): Race
    requires Possible(queued, r, run)
    decreases |run|
  {
    if run == [] then r else After(queued, Apply(queued, r, run[0]), run[1..])
  }

  /** Both calls have returned. */
  predicate Settled(r: Race) { r.binder.BindReturned? && r.canceller.CancelReturned? }

  ghost predicate Inv(queued: bool, r: Race) {
    && (queued && r.started ==> r.binder.BindReturned?)
    && (!r.started ==> r.future in {Pending, Cancelled} && !r.over)
    && (!r.canceller.NotCalled? ==> r.future != Pending)
    && (r.canceller.NotCalled? ==> r.future != Cancelled)
    && (r.missed ==>
          && (r.canceller.TaskRead? || r.canceller.CancelReturned?)
          && r.future in {Running, Done} && r.started && !r.overBefore)
    && (r.canceller.TaskRead? ==>
          if r.canceller.bound then !r.binder.Unbound? && !r.missed
          else
            || r.missed
            || (r.future.Cancelled? && (r.binder.Unbound? || (r.binder.Bound? && r.binder.alreadyCancelled)))
            || (r.future.Cancelled? && r.binder.BindReturned? && r.requested))
    && (r.canceller.CancelReturned? ==>
          r.missed || r.requested || r.overBefore
          || (r.future.Cancelled? && (r.binder.Unbound? || (r.binder.Bound? && r.binder.alreadyCancelled))))
    && (r.missed ==> !r.requested && !(r.binder.Bound? && r.binder.alreadyCancelled))
    && (queued ==> !r.missed)
    && (r.overBefore ==> r.canceller.CancelReturned?)
    && (r.requested ==> r.canceller.CancelReturned? || r.binder.BindReturned?)
    && (r.binder.Bound? && r.binder.alreadyCancelled ==> r.future.Cancelled?)
    && (r.requested && !r.canceller.CancelReturned? ==> r.future.Cancelled?)
  }

  lemma StepOk(queued: bool, r: Race, s: Step)
    requires Inv(queued, r) && Enabled(queued, r, s)
    ensures Inv(queued, Apply(queued, r, s))
  {
  }

  lemma {:induction false} RunOk(queued: bool, r: Race, run: seq<Step>)
    requires Inv(queued, r) && Possible(queued, r, run)
    ensures Inv(queued, After(queued, r, run))
    decreases |run|
  {
    if run != [] {
      StepOk(queued, r, run[0]);
      RunOk(queued, Apply(queued, r, run[0]), run[1..]);
    }
  }

  /** Once both calls have returned, the coroutine was told to cancel or was over, unless the caller found
      nothing bound while the coroutine was already running. */
  lemma CancelReaches(queued: bool, run: seq<Step>)
    requires Possible(queued, START, run) && Settled(After(queued, START, run))
    ensures var r := After(queued, START, run); (r.requested || r.overBefore) <==> !r.missed
    ensures queued ==> var r := After(queued, START, run); r.requested || r.overBefore
  {
    RunOk(queued, START, run);
  }

  /** On the direct path a cancel can be lost: the coroutine starts, the caller cancels, then it is bound. */
  lemma DirectCancelCanMiss()
    ensures var run := [TaskStarts, CancelFuture, CancelLocked, CancelCalls, BindLocked, BindCalls];
      && Possible(false, START, run)
      && var r := After(false, START, run); Settled(r) && !r.requested && !r.over && r.future == Running
  {
    var run := [TaskStarts, CancelFuture, CancelLocked, CancelCalls, BindLocked, BindCalls];
    var r1 := Apply(false, START, TaskStarts);
    var r2 := Apply(false, r1, CancelFuture);
    var r3 := Apply(false, r2, CancelLocked);
    var r4 := Apply(false, r3, CancelCalls);
    var r5 := Apply(false, r4, BindLocked);
    var r6 := Apply(false, r5, BindCalls);
    assert run[5..] == [BindCalls] && run[5..][1..] == [];
    assert Possible(false, r5, run[5..]) && After(false, r5, run[5..]) == r6;
    assert run[4..][1..] == run[5..];
    assert Possible(false, r4, run[4..]) && After(false, r4, run[4..]) == r6;
    assert run[3..][1..] == run[4..];
    assert Possible(false, r3, run[3..]) && After(false, r3, run[3..]) == r6;
    assert run[2..][1..] == run[3..];
    assert Possible(false, r2, run[2..]) && After(false, r2, run[2..]) == r6;
    assert run[1..][1..] == run[2..];
    assert Possible(false, r1, run[1..]) && After(false, r1, run[1..]) == r6;
  }
}
