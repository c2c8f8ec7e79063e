/**
 What every step of the fiber pump keeps: each unfinished fiber is in exactly one place, nothing a
 fiber is handed is made up, results are the controllers' own, and no completion goes unnoticed.
 The invariant has several parts, over disjoint concerns; a step re-establishes each part by a lemma
 that names only the fields that part speaks of.
 */
module FiberInvariant {
  import opened Prelude
  import opened FiberModel

  // ---- part 1: places ------------------------------------------------------------------------

  function ReadyKey(r: Ready): int { r.fiber }
  function SleeperKey(e: Sleeper): int { e.fiber }
  function WaiterKey(x: Waiter): int { if x.active then x.fiber else -1 }

  /** How many times fiber `i` is waiting to be resumed: queued ready, asleep, or behind an active waiter. */
  function Places(ready: seq<Ready>, sleepers: seq<Sleeper>, waiters: seq<Waiter>, i: nat): nat {
    Tally(ready, ReadyKey, i) + Tally(sleepers, SleeperKey, i) + Tally(waiters, WaiterKey, i)
  }

  /** Every unfinished fiber except the running one is in exactly one place; the others are in none. */
  ghost predicate Census(fibers: seq<Fiber>, ready: seq<Ready>, sleepers: seq<Sleeper>, waiters: seq<Waiter>,
      running: Option<nat>)
  {
    forall i | 0 <= i < |fibers| ::
      Places(ready, sleepers, waiters, i) == if fibers[i].done || running == Some(i) then 0 else 1
  }

  /** The wait `y` ran to its own end. */
  predicate Answered(w: World, y: Yield, r: Resume) {
    match y
    case AwaitFuture(fut, _, _) => r == w.outcome(fut)
    case Sleep(_, _) => r == Plain
    case _ => false
  }

  /** Its deadline passed. */
  predicate TimedOut(y: Yield, r: Resume) {
    y.AwaitFuture? && y.deadline.Some? && r == Failure(FutureTimeout)
  }

  /** The check it brought raised this error in one of its calls. */
  ghost predicate Cancelled(w: World, y: Yield, r: Resume) {
    IsWait(y) && y.guarded && r.Failure? && exists n :: w.check(n) == Some(r.e)
  }

  /** A resume the pump may hand to a fiber that yielded `y`. */
  ghost predicate Legit(w: World, y: Yield, r: Resume) {
    Answered(w, y, r) || TimedOut(y, r) || Cancelled(w, y, r)
  }

  ghost predicate WaiterOk(w: World, fibers: seq<Fiber>, x: Waiter) {
    && x.fiber < |fibers| && x.token <= fibers[x.fiber].token
    && (x.active <==> Live(fibers, x))
    && (x.active ==> Current(w, fibers[x.fiber]) == AwaitFuture(x.fut, x.deadline, x.guarded))
  }

  /** Active waiters are exactly the live ones, and each waits for what its fiber yielded. */
  ghost predicate WaitersOk(w: World, fibers: seq<Fiber>, waiters: seq<Waiter>) {
    && (forall k | 0 <= k < |waiters| :: WaiterOk(w, fibers, waiters[k]))
    && (forall i | 0 <= i < |fibers| :: Tally(waiters, WaiterKey, i) == if fibers[i].pending.Some? then 1 else 0)
  }

  ghost predicate SleepersSorted(s: seq<Sleeper>) {
    forall a, b | 0 <= a < b < |s| :: s[a].at <= s[b].at
  }

  ghost predicate SleepersOk(w: World, fibers: seq<Fiber>, sleepers: seq<Sleeper>) {
    && SleepersSorted(sleepers)
    && (forall k | 0 <= k < |sleepers| ::
          && SleeperCurrent(fibers, sleepers[k])
          && Current(w, fibers[sleepers[k].fiber]) == Sleep(sleepers[k].at, sleepers[k].guarded))
  }

  ghost predicate ReadyOk(w: World, fibers: seq<Fiber>, ready: seq<Ready>) {
    forall k | 0 <= k < |ready| ::
      && ready[k].fiber < |fibers| && !fibers[ready[k].fiber].done
      && Legit(w, Current(w, fibers[ready[k].fiber]), ready[k].resume)
  }

  ghost predicate PlacesOk(w: World, fibers: seq<Fiber>, ready: seq<Ready>, sleepers: seq<Sleeper>,
      waiters: seq<Waiter>, running: Option<nat>)
  {
    && Census(fibers, ready, sleepers, waiters, running)
    && WaitersOk(w, fibers, waiters)
    && SleepersOk(w, fibers, sleepers)
    && ReadyOk(w, fibers, ready)
  }

  // ---- part 2: the ledger of fibers and results ----------------------------------------------

  function DoneKey(f: Fiber): int { if f.done then 1 else 0 }

  /** Each resume in the history answers the wait the controller was in when it got it. */
  ghost predicate Honest(w: World, item: Item, history: seq<Resume>) {
    forall k | 0 <= k < |history| :: Legit(w, w.runOne(item, history[..k]), history[k])
  }

  /** A recorded result is what the controller itself returned; any other ending was an error. */
  ghost predicate LedgerOk(w: World, fibers: seq<Fiber>, results: map<nat, int>, firstError: Option<Err>, active: int,
                           running: Option<nat>) {
    && active == Tally(fibers, DoneKey, 0)
    && (forall i | i in results :: i < |fibers|)
    && (forall i | 0 <= i < |fibers| ::
      && Honest(w, fibers[i].item, fibers[i].history)
      && (!fibers[i].done && running != Some(i) ==> IsWait(Current(w, fibers[i])))
      && (i in results ==> fibers[i].done && Current(w, fibers[i]) == Return(results[i]))
      && (fibers[i].done && i !in results ==> firstError.Some?))
  }

  /** The error a controller's last yield ends its fiber with: the one it raised, or that of an unsupported value. */
  function OwnError(y: Yield): Option<Err> {
    match y
    case Raise(e) => Some(e)
    case Unsupported => Some(UnsupportedYield)
    case _ => None
  }

  /** `failed` lists the finished fibers without a result, each once and each ended by its own error, and the first
      error is that of the first of them. */
  ghost predicate FailuresOk(w: World, fibers: seq<Fiber>, results: map<nat, int>, failed: seq<nat>,
                             firstError: Option<Err>) {
    && (forall k | 0 <= k < |failed| ::
          && failed[k] < |fibers| && fibers[failed[k]].done && failed[k] !in results
          && OwnError(Current(w, fibers[failed[k]])).Some?)
    && (forall j, k | 0 <= j < k < |failed| :: failed[j] != failed[k])
    && (forall i: nat | i < |fibers| && fibers[i].done && i !in results :: i in failed)
    && (forall i | i in results :: i < |fibers| && fibers[i].done)
    && firstError == if failed == [] then None else OwnError(Current(w, fibers[failed[0]]))
  }

  /** A fiber that goes on does not concern it. */
  lemma FailuresMove(w: World, fibers: seq<Fiber>, results: map<nat, int>, failed: seq<nat>, firstError: Option<Err>,
      i: nat, x: Fiber)
    requires FailuresOk(w, fibers, results, failed, firstError) && i < |fibers| && !fibers[i].done && !x.done
    ensures FailuresOk(w, fibers[i := x], results, failed, firstError)
  {
  }

  lemma FailuresNew(w: World, fibers: seq<Fiber>, results: map<nat, int>, failed: seq<nat>, firstError: Option<Err>,
      x: Fiber)
    requires FailuresOk(w, fibers, results, failed, firstError) && !x.done
    ensures FailuresOk(w, fibers + [x], results, failed, firstError)
  {
  }

  lemma FailuresReturn(w: World, fibers: seq<Fiber>, results: map<nat, int>, failed: seq<nat>, firstError: Option<Err>,
      i: nat, v: int)
    requires FailuresOk(w, fibers, results, failed, firstError) && i < |fibers| && !fibers[i].done
    ensures FailuresOk(w, fibers[i := fibers[i].(done := true)], results[i := v], failed, firstError)
  {
  }

  lemma FailuresRaise(w: World, fibers: seq<Fiber>, results: map<nat, int>, failed: seq<nat>, firstError: Option<Err>,
      i: nat, e: Err)
    requires FailuresOk(w, fibers, results, failed, firstError) && i < |fibers| && !fibers[i].done
    requires OwnError(Current(w, fibers[i])) == Some(e)
    ensures FailuresOk(w, fibers[i := fibers[i].(done := true)], results, failed + [i],
      if firstError.Some? then firstError else Some(e))
  {
  }

  // ---- part 3: where waiters are registered --------------------------------------------------

  ghost predicate Registered(futureWaiters: map<Fut, seq<nat>>, k: nat, fut: Fut) {
    fut in futureWaiters && k in futureWaiters[fut]
  }

  ghost predicate HasDeadline(deadlines: seq<Deadline>, k: nat) {
    exists d :: 0 <= d < |deadlines| && deadlines[d].waiter == k
  }

  ghost predicate DeadlinesSorted(s: seq<Deadline>) {
    forall a, b | 0 <= a < b < |s| :: s[a].at <= s[b].at
  }

  /** No waiter is listed twice. */
  ghost predicate Increasing(list: seq<nat>) {
    forall a, b | 0 <= a < b < |list| :: list[a] < list[b]
  }

  /** An active waiter is listed under its future, or is in `hand`, being delivered to; if it has a
      deadline it is in the deadline heap. */
  ghost predicate RegistryOk(waiters: seq<Waiter>, futureWaiters: map<Fut, seq<nat>>, deadlines: seq<Deadline>,
      hand: seq<nat>)
  {
    && (forall k | 0 <= k < |waiters| && waiters[k].active :: k in hand || Registered(futureWaiters, k, waiters[k].fut))
    && (forall k | 0 <= k < |waiters| && waiters[k].active && waiters[k].deadline.Some? :: HasDeadline(deadlines, k))
    && (forall f | f in futureWaiters :: forall j | 0 <= j < |futureWaiters[f]| ::
          futureWaiters[f][j] < |waiters| && waiters[futureWaiters[f][j]].fut == f)
    && (forall f | f in futureWaiters :: Increasing(futureWaiters[f]))
    && (forall d | 0 <= d < |deadlines| ::
          deadlines[d].waiter < |waiters| && waiters[deadlines[d].waiter].deadline == Some(deadlines[d].at))
    && DeadlinesSorted(deadlines)
  }

  // ---- part 4: signals from the producers ----------------------------------------------------

  /** The completion of every listed future is queued or still owed by a registered callback, and a
      queued completion has set the event, is about to set it, or is about to be rechecked. */
  ghost predicate SignalsOk(futures: set<Fut>, completed: seq<Fut>, finished: set<Fut>, callbacks: multiset<Fut>,
                            signalled: bool) {
    && (forall f | f in futures :: f in completed || f in callbacks)
    && (forall f | f in completed :: f in finished)
    && (completed != [] ==> signalled)
  }

  ghost predicate RunningOk(fibers: seq<Fiber>, running: Option<nat>) {
    running.Some? ==> running.value < |fibers| && !fibers[running.value].done
  }

  ghost predicate Inv(w: World, p: Pump, hand: seq<nat>, running: Option<nat>) {
    && RunningOk(p.fibers, running)
    && PlacesOk(w, p.fibers, p.ready, p.sleepers, p.waiters, running)
    && LedgerOk(w, p.fibers, p.results, p.firstError, p.active, running)
    && FailuresOk(w, p.fibers, p.results, p.failed, p.firstError)
    && RegistryOk(p.waiters, p.futureWaiters, p.deadlines, hand)
    && SignalsOk(p.futureWaiters.Keys, p.completed, p.finished, p.callbacks, p.wake || p.setters > 0 || p.rechecking)
  }

  lemma EmptyInv(w: World)
    ensures Inv(w, EMPTY_PUMP, [], None)
  {
  }

  // ---- heaps ---------------------------------------------------------------------------------

  lemma {:induction false} PushSleeperOk(s: seq<Sleeper>, e: Sleeper)
    requires SleepersSorted(s)
    ensures SleepersSorted(PushSleeper(s, e))
    ensures forall i ::
      Tally(PushSleeper(s, e), SleeperKey, i) == Tally(s, SleeperKey, i) + if e.fiber == i then 1 else 0
    ensures forall x :: x in PushSleeper(s, e) <==> x in s || x == e
  {
    hide SleepersSorted;
    PushSleeperSorted(s, e);
    PushSleeperMembers(s, e);
    forall i
      ensures Tally(PushSleeper(s, e), SleeperKey, i) == Tally(s, SleeperKey, i) + if e.fiber == i then 1 else 0
    {
      PushSleeperTally(s, e, i);
    }
  }

  lemma {:induction false} PushSleeperMembers(s: seq<Sleeper>, e: Sleeper)
    ensures forall x :: x in PushSleeper(s, e) <==> x in s || x == e
  {
    if s != [] && e.at >= s[0].at {
      PushSleeperMembers(s[1..], e);
      assert s == [s[0]] + s[1..];
    }
  }

  lemma {:induction false} PushSleeperSorted(s: seq<Sleeper>, e: Sleeper)
    requires SleepersSorted(s)
    ensures SleepersSorted(PushSleeper(s, e))
  {
    if s != [] && e.at >= s[0].at {
      PushSleeperSorted(s[1..], e);
      PushSleeperMembers(s[1..], e);
      assert forall x | x in s[1..] :: s[0].at <= x.at;
    }
  }

  lemma {:induction false} PushSleeperTally(s: seq<Sleeper>, e: Sleeper, i: int)
    ensures Tally(PushSleeper(s, e), SleeperKey, i) == Tally(s, SleeperKey, i) + if e.fiber == i then 1 else 0
  {
    if s == [] || e.at < s[0].at {
      assert ([e] + s)[1..] == s;
    } else {
      PushSleeperTally(s[1..], e, i);
      var t := PushSleeper(s[1..], e);
      assert ([s[0]] + t)[1..] == t;
    }
  }

  lemma {:induction false} PushDeadlineOk(s: seq<Deadline>, e: Deadline)
    requires DeadlinesSorted(s)
    ensures DeadlinesSorted(PushDeadline(s, e))
    ensures forall x :: x in PushDeadline(s, e) <==> x in s || x == e
  {
    if s == [] || e.at < s[0].at {
      assert ([e] + s)[1..] == s;
    } else {
      PushDeadlineOk(s[1..], e);
      var t := PushDeadline(s[1..], e);
      assert forall x :: x in s <==> x == s[0] || x in s[1..];
      assert forall x | x in s[1..] :: s[0].at <= x.at;
    }
  }

  // ---- places: the fiber that runs -----------------------------------------------------------

  /** A fiber with no place is named by no sleeper, no ready entry and no active waiter. */
  lemma NotPlaced(ready: seq<Ready>, sleepers: seq<Sleeper>, waiters: seq<Waiter>, i: nat)
    requires Places(ready, sleepers, waiters, i) == 0
    ensures forall k | 0 <= k < |sleepers| :: sleepers[k].fiber != i
    ensures forall k | 0 <= k < |ready| :: ready[k].fiber != i
    ensures forall k | 0 <= k < |waiters| :: waiters[k].fiber == i ==> !waiters[k].active
  {
    forall k | 0 <= k < |sleepers| ensures sleepers[k].fiber != i {
      if sleepers[k].fiber == i { TallyPositive(sleepers, k, SleeperKey, i); }
    }
    forall k | 0 <= k < |ready| ensures ready[k].fiber != i {
      if ready[k].fiber == i { TallyPositive(ready, k, ReadyKey, i); }
    }
    forall k | 0 <= k < |waiters| ensures waiters[k].fiber == i ==> !waiters[k].active {
      if waiters[k].fiber == i && waiters[k].active { TallyPositive(waiters, k, WaiterKey, i); }
    }
  }

  /** The running fiber may change freely, as long as no old waiter becomes live. */
  lemma PlacesRun(w: World, fibers: seq<Fiber>, ready: seq<Ready>, sleepers: seq<Sleeper>, waiters: seq<Waiter>,
      i: nat, x: Fiber)
    requires i < |fibers| && PlacesOk(w, fibers, ready, sleepers, waiters, Some(i))
    requires x.token >= fibers[i].token && x.pending.None?
    ensures PlacesOk(w, fibers[i := x], ready, sleepers, waiters, if x.done then None else Some(i))
  {
    assert Places(ready, sleepers, waiters, i) == 0;
    NotPlaced(ready, sleepers, waiters, i);
    forall k | 0 <= k < |waiters| ensures WaiterOk(w, fibers[i := x], waiters[k]) {
      assert WaiterOk(w, fibers, waiters[k]);
    }
  }

  lemma PlacesAsleep(w: World, fibers: seq<Fiber>, ready: seq<Ready>, sleepers: seq<Sleeper>, waiters: seq<Waiter>,
      i: nat, e: Sleeper)
    requires i < |fibers| && PlacesOk(w, fibers, ready, sleepers, waiters, Some(i))
    requires SleeperCurrent(fibers, e) && e.fiber == i && Current(w, fibers[i]) == Sleep(e.at, e.guarded)
    ensures PlacesOk(w, fibers, ready, PushSleeper(sleepers, e), waiters, None)
  {
    PushSleeperOk(sleepers, e);
    var pushed := PushSleeper(sleepers, e);
    forall k | 0 <= k < |pushed|
      ensures SleeperCurrent(fibers, pushed[k])
        && Current(w, fibers[pushed[k].fiber]) == Sleep(pushed[k].at, pushed[k].guarded)
    {
      assert pushed[k] in pushed;
    }
  }

  lemma PlacesAwait(w: World, fibers: seq<Fiber>, ready: seq<Ready>, sleepers: seq<Sleeper>, waiters: seq<Waiter>,
      i: nat, x: Fiber, y: Waiter)
    requires i < |fibers| && PlacesOk(w, fibers, ready, sleepers, waiters, Some(i))
    requires x.token == y.token > fibers[i].token && x.pending == Some(y.fut) && !x.done
    requires y.fiber == i && y.active && Current(w, x) == AwaitFuture(y.fut, y.deadline, y.guarded)
    ensures PlacesOk(w, fibers[i := x], ready, sleepers, waiters + [y], None)
  {
    var fibers', waiters' := fibers[i := x], waiters + [y];
    assert Places(ready, sleepers, waiters, i) == 0;
    NotPlaced(ready, sleepers, waiters, i);
    forall j ensures Tally(waiters', WaiterKey, j) == Tally(waiters, WaiterKey, j) + if j == i then 1 else 0 {
      TallyAppend(waiters, y, WaiterKey, j);
    }
    forall k | 0 <= k < |waiters'| ensures WaiterOk(w, fibers', waiters'[k]) {
      if k < |waiters| { assert WaiterOk(w, fibers, waiters[k]); }
    }
  }

  lemma PlacesNew(w: World, fibers: seq<Fiber>, ready: seq<Ready>, sleepers: seq<Sleeper>, waiters: seq<Waiter>,
      x: Fiber)
    requires PlacesOk(w, fibers, ready, sleepers, waiters, None) && x.pending.None? && !x.done
    ensures PlacesOk(w, fibers + [x], ready, sleepers, waiters, Some(|fibers|))
  {
    var n := |fibers|;
    if Tally(ready, ReadyKey, n) >= 1 { var k := TallyWitness(ready, ReadyKey, n); }
    if Tally(sleepers, SleeperKey, n) >= 1 { var k := TallyWitness(sleepers, SleeperKey, n); }
    if Tally(waiters, WaiterKey, n) >= 1 { var k := TallyWitness(waiters, WaiterKey, n); }
    forall k | 0 <= k < |waiters| ensures WaiterOk(w, fibers + [x], waiters[k]) {
      assert WaiterOk(w, fibers, waiters[k]);
    }
  }

  lemma PlacesUnqueue(w: World, fibers: seq<Fiber>, ready: seq<Ready>, sleepers: seq<Sleeper>, waiters: seq<Waiter>)
    requires PlacesOk(w, fibers, ready, sleepers, waiters, None) && ready != []
    ensures PlacesOk(w, fibers, ready[1..], sleepers, waiters, Some(ready[0].fiber))
    ensures fibers[ready[0].fiber].pending.None?
  {
    assert Places(ready, sleepers, waiters, ready[0].fiber) == 1;
  }

  // ---- places: waking ------------------------------------------------------------------------

  /** Its waiter is retired, and no other active one is its fiber's. */
  lemma {:induction false} WaitersWake(w: World, fibers: seq<Fiber>, ready: seq<Ready>, sleepers: seq<Sleeper>,
      waiters: seq<Waiter>, k: nat)
    requires Census(fibers, ready, sleepers, waiters, None) && WaitersOk(w, fibers, waiters)
    requires k < |waiters| && waiters[k].active && Live(fibers, waiters[k])
    ensures var i := waiters[k].fiber;
      && WaitersOk(w, fibers[i := fibers[i].(pending := None)], waiters[k := waiters[k].(active := false)])
      && forall j ::
           Tally(waiters[k := waiters[k].(active := false)], WaiterKey, j)
           == Tally(waiters, WaiterKey, j) + (if j == -1 then 1 else 0) - if j == i then 1 else 0
  {
    var i := waiters[k].fiber;
    var y := waiters[k].(active := false);
    var fibers', waiters' := fibers[i := fibers[i].(pending := None)], waiters[k := y];
    forall j
      ensures Tally(waiters', WaiterKey, j)
           == Tally(waiters, WaiterKey, j) + (if j == -1 then 1 else 0) - if j == i then 1 else 0
    {
      TallyUpdate(waiters, k, y, WaiterKey, j);
    }
    forall j | 0 <= j < |waiters'| ensures WaiterOk(w, fibers', waiters'[j]) {
      assert WaiterOk(w, fibers, waiters[j]);
      if j != k && waiters[j].fiber == i && waiters[j].active {
        if j < k { TallyTwo(waiters, j, k, WaiterKey, i); } else { TallyTwo(waiters, k, j, WaiterKey, i); }
      }
    }
  }

  /** A live waiter's fiber moves from behind the waiter to the ready queue. */
  lemma PlacesWake(w: World, fibers: seq<Fiber>, ready: seq<Ready>, sleepers: seq<Sleeper>, waiters: seq<Waiter>,
      k: nat, r: Resume)
    requires k < |waiters| && waiters[k].active && PlacesOk(w, fibers, ready, sleepers, waiters, None)
    requires Live(fibers, waiters[k]) && Legit(w, Current(w, fibers[waiters[k].fiber]), r)
    ensures var i := waiters[k].fiber;
      PlacesOk(w, fibers[i := fibers[i].(pending := None)], ready + [Ready(i, r)], sleepers,
        waiters[k := waiters[k].(active := false)], None)
  {
    var i := waiters[k].fiber;
    var x, y := fibers[i].(pending := None), waiters[k].(active := false);
    var fibers', waiters' := fibers[i := x], waiters[k := y];
    WaitersWake(w, fibers, ready, sleepers, waiters, k);
    forall j ensures Tally(ready + [Ready(i, r)], ReadyKey, j) == Tally(ready, ReadyKey, j) + if j == i then 1 else 0 {
      TallyAppend(ready, Ready(i, r), ReadyKey, j);
    }
  }

  /** A sleeper's fiber moves from the heap to the ready queue. */
  lemma PlacesRouse(w: World, fibers: seq<Fiber>, ready: seq<Ready>, sleepers: seq<Sleeper>, waiters: seq<Waiter>,
      k: nat, r: Resume)
    requires k < |sleepers| && PlacesOk(w, fibers, ready, sleepers, waiters, None)
    requires sleepers[k].fiber < |fibers| && Legit(w, Current(w, fibers[sleepers[k].fiber]), r)
    ensures PlacesOk(w, fibers, ready + [Ready(sleepers[k].fiber, r)], sleepers[..k] + sleepers[k + 1..], waiters, None)
  {
    var i := sleepers[k].fiber;
    var ready', sleepers' := ready + [Ready(i, r)], sleepers[..k] + sleepers[k + 1..];
    forall j ensures Tally(ready', ReadyKey, j) == Tally(ready, ReadyKey, j) + if j == i then 1 else 0 {
      TallyAppend(ready, Ready(i, r), ReadyKey, j);
    }
    forall j ensures Tally(sleepers', SleeperKey, j) == Tally(sleepers, SleeperKey, j) - if j == i then 1 else 0 {
      TallyRemove(sleepers, k, SleeperKey, j);
    }
  }

  // ---- the ledger ----------------------------------------------------------------------------

  /** Parking, waking and rousing change neither what a fiber has received nor whether it is done. */
  lemma LedgerPark(w: World, fibers: seq<Fiber>, results: map<nat, int>, firstError: Option<Err>, active: int, i: nat,
      x: Fiber)
    requires i < |fibers| && !fibers[i].done && IsWait(Current(w, fibers[i]))
    requires x.item == fibers[i].item && x.history == fibers[i].history && !x.done
    requires LedgerOk(w, fibers, results, firstError, active, None)
      || LedgerOk(w, fibers, results, firstError, active, Some(i))
    ensures LedgerOk(w, fibers[i := x], results, firstError, active, None)
  {
    TallyUpdate(fibers, i, x, DoneKey, 0);
  }

  lemma LedgerFinish(w: World, fibers: seq<Fiber>, results: map<nat, int>, firstError: Option<Err>, active: int, i: nat,
                     results': map<nat, int>, firstError': Option<Err>)
    requires i < |fibers| && !fibers[i].done && LedgerOk(w, fibers, results, firstError, active, Some(i))
    requires || (results' == results && firstError'.Some?)
             || (Current(w, fibers[i]).Return? && results' == results[i := Current(w, fibers[i]).v]
                && firstError' == firstError)
    ensures LedgerOk(w, fibers[i := fibers[i].(done := true)], results', firstError', active - 1, None)
  {
    TallyUpdate(fibers, i, fibers[i].(done := true), DoneKey, 0);
  }

  lemma LedgerNew(w: World, fibers: seq<Fiber>, results: map<nat, int>, firstError: Option<Err>, active: int,
      item: Item)
    requires LedgerOk(w, fibers, results, firstError, active, None)
    ensures LedgerOk(w, fibers + [Fiber(item, [], 0, false, None)], results, firstError, active + 1, Some(|fibers|))
  {
    TallyAppend(fibers, Fiber(item, [], 0, false, None), DoneKey, 0);
  }

  lemma LedgerHand(w: World, fibers: seq<Fiber>, results: map<nat, int>, firstError: Option<Err>, active: int, i: nat,
      x: Fiber, r: Resume)
    requires i < |fibers| && !fibers[i].done && LedgerOk(w, fibers, results, firstError, active, None)
    requires x == fibers[i].(history := fibers[i].history + [r]) && Legit(w, Current(w, fibers[i]), r)
    ensures LedgerOk(w, fibers[i := x], results, firstError, active, Some(i))
  {
    TallyUpdate(fibers, i, x, DoneKey, 0);
    HonestExtends(w, x.item, fibers[i].history, r);
  }

  lemma HonestExtends(w: World, item: Item, history: seq<Resume>, r: Resume)
    requires Honest(w, item, history) && Legit(w, w.runOne(item, history), r)
    ensures Honest(w, item, history + [r])
  {
    var h := history + [r];
    forall k | 0 <= k < |h| ensures Legit(w, w.runOne(item, h[..k]), h[k]) {
      assert h[..k] == history[..k];
      if k == |history| { assert history[..k] == history; }
    }
  }

  // ---- the registry --------------------------------------------------------------------------

  lemma RegistryAwait(p: Pump, i: nat, fut: Fut, deadline: Option<int>, guarded: bool)
    requires i < |p.fibers| && RegistryOk(p.waiters, p.futureWaiters, p.deadlines, [])
    ensures var q := ParkOnFuture(p, i, fut, deadline, guarded);
      RegistryOk(q.waiters, q.futureWaiters, q.deadlines, [])
  {
    var q := ParkOnFuture(p, i, fut, deadline, guarded);
    var n := |p.waiters|;
    forall k | 0 <= k < |q.waiters| && q.waiters[k].active ensures Registered(q.futureWaiters, k, q.waiters[k].fut) {
      if k < n {
        assert Registered(p.futureWaiters, k, p.waiters[k].fut);
      } else {
        assert q.futureWaiters[fut][|q.futureWaiters[fut]| - 1] == k;
      }
    }
    DeadlinesAwait(p, i, fut, deadline, guarded);
  }

  /** The deadline heap's part, when a fiber parks on a future. */
  lemma DeadlinesAwait(p: Pump, i: nat, fut: Fut, deadline: Option<int>, guarded: bool)
    requires i < |p.fibers| && RegistryOk(p.waiters, p.futureWaiters, p.deadlines, [])
    ensures var q := ParkOnFuture(p, i, fut, deadline, guarded);
      && (forall k | 0 <= k < |q.waiters| && q.waiters[k].active && q.waiters[k].deadline.Some? ::
         HasDeadline(q.deadlines, k))
      && (forall d | 0 <= d < |q.deadlines| ::
            q.deadlines[d].waiter < |q.waiters| && q.waiters[q.deadlines[d].waiter].deadline == Some(q.deadlines[d].at))
      && DeadlinesSorted(q.deadlines)
  {
    var q := ParkOnFuture(p, i, fut, deadline, guarded);
    var n := |p.waiters|;
    if deadline.Some? { PushDeadlineOk(p.deadlines, Deadline(deadline.value, p.serial + 1, n)); }
    forall k | 0 <= k < |q.waiters| && q.waiters[k].active && q.waiters[k].deadline.Some?
        ensures HasDeadline(q.deadlines, k)
    {
      if k < n {
        assert HasDeadline(p.deadlines, k);
        var d :| 0 <= d < |p.deadlines| && p.deadlines[d].waiter == k;
        assert p.deadlines[d] in q.deadlines;
      } else {
        assert Deadline(deadline.value, p.serial + 1, n) in q.deadlines;
      }
    }
    forall d | 0 <= d < |q.deadlines|
      ensures q.deadlines[d].waiter < |q.waiters|
        && q.waiters[q.deadlines[d].waiter].deadline == Some(q.deadlines[d].at)
    {
      assert q.deadlines[d] in q.deadlines;
    }
  }

  /** Retiring a waiter only weakens what the registry has to hold; it need not stay in hand. */
  lemma RegistryRetire(waiters: seq<Waiter>, futureWaiters: map<Fut, seq<nat>>, deadlines: seq<Deadline>,
      hand: seq<nat>, k: nat)
    requires k < |waiters| && RegistryOk(waiters, futureWaiters, deadlines, hand)
    ensures RegistryOk(waiters[k := waiters[k].(active := false)], futureWaiters, deadlines, hand)
    ensures hand != [] && hand[0] == k ==>
      RegistryOk(waiters[k := waiters[k].(active := false)], futureWaiters, deadlines, hand[1..])
  {
    var y := waiters[k].(active := false);
    forall j | 0 <= j < |waiters[k := y]| && waiters[k := y][j].active
      ensures (j in hand || Registered(futureWaiters, j, waiters[k := y][j].fut))
    {
      assert j in hand || Registered(futureWaiters, j, waiters[j].fut);
    }
  }

  /** Taking a future's list out of the table puts its waiters in hand. */
  lemma RegistryTake(waiters: seq<Waiter>, futureWaiters: map<Fut, seq<nat>>, deadlines: seq<Deadline>, f: Fut)
    requires f in futureWaiters && RegistryOk(waiters, futureWaiters, deadlines, [])
    ensures RegistryOk(waiters, futureWaiters - {f}, deadlines, futureWaiters[f])
  {
    forall k | 0 <= k < |waiters| && waiters[k].active
      ensures k in futureWaiters[f] || Registered(futureWaiters - {f}, k, waiters[k].fut)
    {
      assert Registered(futureWaiters, k, waiters[k].fut);
    }
  }

  lemma RegistryPopDeadline(waiters: seq<Waiter>, futureWaiters: map<Fut, seq<nat>>, deadlines: seq<Deadline>)
    requires deadlines != [] && RegistryOk(waiters, futureWaiters, deadlines, [])
    ensures var k := deadlines[0].waiter;
      RegistryOk(waiters[k := waiters[k].(active := false)], futureWaiters, deadlines[1..], [])
  {
    var k0 := deadlines[0].waiter;
    RegistryRetire(waiters, futureWaiters, deadlines, [], k0);
    var waiters' := waiters[k0 := waiters[k0].(active := false)];
    forall k | 0 <= k < |waiters'| && waiters'[k].active && waiters'[k].deadline.Some?
        ensures HasDeadline(deadlines[1..], k)
    {
      var d :| 0 <= d < |deadlines| && deadlines[d].waiter == k;
      assert deadlines[1..][d - 1].waiter == k;
    }
  }

  lemma {:induction false} ActiveOnlyIncreasing(p: Pump, list: seq<nat>)
    requires Known(p, list) && Increasing(list)
    ensures Increasing(ActiveOnly(p, list))
  {
    if list != [] {
      var tail := list[1..];
      assert forall j | 0 <= j < |tail| :: tail[j] == list[j + 1];
      ActiveOnlyIncreasing(p, tail);
      var rest := ActiveOnly(p, tail);
      forall b | 0 <= b < |rest| ensures list[0] < rest[b] {
        assert rest[b] in tail;
      }
      if p.waiters[list[0]].active { IncreasingCons(list[0], rest); } else { assert [] + rest == rest; }
    }
  }

  lemma IncreasingCons(x: nat, rest: seq<nat>)
    requires Increasing(rest) && forall b | 0 <= b < |rest| :: x < rest[b]
    ensures Increasing([x] + rest)
  {
    var list := [x] + rest;
    forall a, b | 0 <= a < b < |list| ensures list[a] < list[b] {
      assert list[b] == rest[b - 1];
      if a > 0 { assert list[a] == rest[a - 1]; }
    }
  }

  lemma RegistryPrune(p: Pump, f: Fut)
    requires f in p.futureWaiters && Known(p, p.futureWaiters[f])
      && RegistryOk(p.waiters, p.futureWaiters, p.deadlines, [])
    ensures RegistryOk(p.waiters, Prune(p, f).futureWaiters, p.deadlines, [])
  {
    var q, keep := Prune(p, f), ActiveOnly(p, p.futureWaiters[f]);
    ActiveOnlyIncreasing(p, p.futureWaiters[f]);
    forall k | 0 <= k < |p.waiters| && p.waiters[k].active ensures Registered(q.futureWaiters, k, p.waiters[k].fut) {
      assert Registered(p.futureWaiters, k, p.waiters[k].fut);
      if p.waiters[k].fut == f { assert k in keep; }
    }
    forall j | 0 <= j < |keep| ensures keep[j] < |p.waiters| && p.waiters[keep[j]].fut == f {
      assert keep[j] in p.futureWaiters[f];
    }
  }
}
