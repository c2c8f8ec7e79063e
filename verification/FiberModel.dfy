/**
 The cooperative fiber pump as a value: what one runtime holds, and what each of its methods
 does to it.  `FiberRuntime.dfy` proves the updating methods against these functions;
 `FiberInvariant.dfy` proves what every step keeps.
 */
module FiberModel {
  import opened Prelude

  type Item = int
  type Fut = nat

  datatype Err = FutureTimeout | Raised(code: int) | UnsupportedYield

  /** What a suspended fiber is handed when it is switched back in. */
  datatype Resume = Plain | Value(v: int) | Failure(e: Err)

  /** What a fiber hands the pump when it switches out; `guarded` says it brought a cancellation check. */
  datatype Yield =
    | AwaitFuture(fut: Fut, deadline: Option<int>, guarded: bool)
    | Sleep(until: int, guarded: bool)
    | Return(v: int)
    | Raise(e: Err)
    | Unsupported

  /**
   Everything a pump cannot influence.  A job controller is the function from an item and the
   resumes received so far to the next thing it yields; `outcome` is what each future resolves to;
   `check` is the verdict of the n-th call of a cancellation check (`Some` when it raises).
   */
  datatype World = World(
    runOne: (Item, seq<Resume>) -> Yield,
    outcome: Fut -> Resume,
    check: nat -> Option<Err>)

  datatype Fiber = Fiber(item: Item, history: seq<Resume>, token: nat, done: bool, pending: Option<Fut>)
  datatype Waiter = Waiter(fiber: nat, token: nat, fut: Fut, deadline: Option<int>, guarded: bool, active: bool)
  datatype Deadline = Deadline(at: int, serial: nat, waiter: nat)
  datatype Sleeper = Sleeper(at: int, serial: nat, fiber: nat, token: nat, guarded: bool)
  datatype Ready = Ready(fiber: nat, resume: Resume)

  /**
   `waiters` is the table of all waiter records ever made: the list under a future and the deadline
   heap name the same record by its index.  `deadlines` and `sleepers` are heaps, kept in pop order.
   `finished`, `callbacks` and `setters` belong to the producer threads: futures that are done,
   done-callbacks registered and not yet run, and callbacks between their `put` and their `set`.
   `failed` records the fibers that ended in an error, in the order in which they did.
   */
  datatype Pump = Pump(
    fibers: seq<Fiber>,
    waiters: seq<Waiter>,
    futureWaiters: map<Fut, seq<nat>>,
    deadlines: seq<Deadline>,
    sleepers: seq<Sleeper>,
    serial: nat,
    ready: seq<Ready>,
    completed: seq<Fut>,
    wake: bool,
    rechecking: bool,
    active: int,
    results: map<nat, int>,
    firstError: Option<Err>,
    failed: seq<nat>,
    calls: nat,
    finished: set<Fut>,
    callbacks: multiset<Fut>,
    setters: nat)

  const EMPTY_PUMP := Pump([], [], map[], [], [], 0, [], [], false, false, 0, map[], None, [], 0, {}, multiset{}, 0)

  predicate IsWait(y: Yield) {
    y.AwaitFuture? || y.Sleep?
  }

  /** What the fiber yielded last: its controller run on the resumes it has received. */
  function Current(w: World, f: Fiber): Yield {
    w.runOne(f.item, f.history)
  }

  // ---- heaps, in pop order -------------------------------------------------------------------

  function PushSleeper(s: seq<Sleeper>, e: Sleeper): seq<Sleeper> {
    if s == [] || e.at < s[0].at then [e] + s else [s[0]] + PushSleeper(s[1..], e)
  }

  function PushDeadline(s: seq<Deadline>, e: Deadline): seq<Deadline> {
    if s == [] || e.at < s[0].at then [e] + s else [s[0]] + PushDeadline(s[1..], e)
  }

  // ---- switching a fiber in ------------------------------------------------------------------

  function FirstError(p: Pump, e: Err): Option<Err> {
    if p.firstError.Some? then p.firstError else Some(e)
  }

  function Finish(p: Pump, i: nat): Pump
    requires i < |p.fibers|
  {
    p.(fibers := p.fibers[i := p.fibers[i].(done := true)], active := p.active - 1)
  }

  /** Registers a new waiter of fiber `i`; the first one under a future also registers the done-callback,
      which runs on the spot when the future is already done. */
  function ParkOnFuture(p: Pump, i: nat, fut: Fut, deadline: Option<int>, guarded: bool): Pump
    requires i < |p.fibers|
  {
    var fiber := p.fibers[i];
    var token := fiber.token + 1;
    var k := |p.waiters|;
    var known := fut in p.futureWaiters;
    var immediate := !known && fut in p.finished;
    p.(fibers := p.fibers[i := fiber.(token := token, pending := Some(fut))],
       waiters := p.waiters + [Waiter(i, token, fut, deadline, guarded, true)],
       futureWaiters := p.futureWaiters[fut := (if known then p.futureWaiters[fut] else []) + [k]],
       serial := if deadline.Some? then p.serial + 1 else p.serial,
       deadlines := if deadline.Some? then PushDeadline(p.deadlines, Deadline(deadline.value, p.serial + 1, k))
         else p.deadlines,
       callbacks := if known || immediate then p.callbacks else p.callbacks + multiset{fut},
       completed := if immediate then p.completed + [fut] else p.completed,
       wake := p.wake || immediate)
  }

  function ParkAsleep(p: Pump, i: nat, until: int, guarded: bool): Pump
    requires i < |p.fibers|
  {
    var fiber := p.fibers[i];
    p.(fibers := p.fibers[i := fiber.(token := fiber.token + 1)],
       serial := p.serial + 1,
       sleepers := PushSleeper(p.sleepers, Sleeper(until, p.serial + 1, i, fiber.token + 1, guarded)))
  }

  /** Files fiber `i` according to what it has just yielded. */
  function Settle(w: World, p: Pump, i: nat): Pump
    requires i < |p.fibers|
  {
    match Current(w, p.fibers[i])
    case Raise(e) => Finish(p, i).(firstError := FirstError(p, e), failed := p.failed + [i])
    case Return(v) => Finish(p, i).(results := p.results[i := v])
    case AwaitFuture(fut, deadline, guarded) => ParkOnFuture(p, i, fut, deadline, guarded)
    case Sleep(until, guarded) => ParkAsleep(p, i, until, guarded)
    case Unsupported => Finish(p, i).(firstError := FirstError(p, UnsupportedYield), failed := p.failed + [i])
  }

  function Hand(p: Pump, i: nat, r: Resume): Pump
    requires i < |p.fibers|
  {
    p.(fibers := p.fibers[i := p.fibers[i].(history := p.fibers[i].history + [r])])
  }

  /** `_resume_state` on a fiber that was switched out. */
  function ResumeState(w: World, p: Pump, i: nat, r: Resume): Pump
    requires i < |p.fibers|
  {
    if p.fibers[i].done then p else Settle(w, Hand(p, i, r), i)
  }

  function NewState(p: Pump, item: Item): Pump {
    p.(fibers := p.fibers + [Fiber(item, [], 0, false, None)], active := p.active + 1)
  }

  /** Creating a fiber for an item and switching to it for the first time. */
  function Launch(w: World, p: Pump, item: Item): Pump {
    Settle(w, NewState(p, item), |p.fibers|)
  }

  predicate ReadyShaped(p: Pump) {
    forall k | 0 <= k < |p.ready| :: p.ready[k].fiber < |p.fibers|
  }

  function ResumeNext(w: World, p: Pump): Pump
    requires ReadyShaped(p) && p.ready != []
  {
    ResumeState(w, p.(ready := p.ready[1..]), p.ready[0].fiber, p.ready[0].resume)
  }

  // ---- waking a waiter -----------------------------------------------------------------------

  /** The waiter's own wait is the one its fiber is in now. */
  predicate Live(fibers: seq<Fiber>, x: Waiter) {
    x.fiber < |fibers| && !fibers[x.fiber].done
    && fibers[x.fiber].token == x.token && fibers[x.fiber].pending == Some(x.fut)
  }

  function Deactivate(p: Pump, k: nat): Pump
    requires k < |p.waiters|
  {
    p.(waiters := p.waiters[k := p.waiters[k].(active := false)])
  }

  /** Retires waiter `k` and, when it is live, makes its fiber ready with `r`. */
  function Wake(p: Pump, k: nat, r: Resume): Pump
    requires k < |p.waiters|
  {
    var q := Deactivate(p, k);
    if Live(p.fibers, p.waiters[k]) then
      var i := p.waiters[k].fiber;
      q.(fibers := p.fibers[i := p.fibers[i].(pending := None)], ready := p.ready + [Ready(i, r)])
    else q
  }

  predicate Known(p: Pump, list: seq<nat>) {
    forall j | 0 <= j < |list| :: list[j] < |p.waiters|
  }

  function WakeAll(p: Pump, list: seq<nat>, r: Resume): (q: Pump)
    requires Known(p, list)
    ensures |q.waiters| == |p.waiters| && |q.fibers| == |p.fibers|
    ensures q.futureWaiters == p.futureWaiters && q.completed == p.completed
    decreases |list|
  {
    if list == [] then p else WakeAll(Wake(p, list[0], r), list[1..], r)
  }

  // ---- completed futures ---------------------------------------------------------------------

  predicate ListsKnown(p: Pump) {
    forall f | f in p.futureWaiters :: Known(p, p.futureWaiters[f])
  }

  /** One turn of the loop of `_process_futures`: the oldest completed future. */
  function Deliver(w: World, p: Pump): (q: Pump)
    requires ListsKnown(p) && p.completed != []
    ensures |q.waiters| == |p.waiters| && |q.fibers| == |p.fibers|
    ensures ListsKnown(q) && q.completed == p.completed[1..]
  {
    var f := p.completed[0];
    var q := p.(completed := p.completed[1..]);
    if f in p.futureWaiters then
      WakeAll(q.(futureWaiters := p.futureWaiters - {f}), p.futureWaiters[f], w.outcome(f))
    else q
  }

  function Drain(w: World, p: Pump): (q: Pump)
    requires ListsKnown(p)
    ensures q.completed == []
    decreases |p.completed|
  {
    if p.completed == [] then p else Drain(w, Deliver(w, p))
  }

  /** Clearing the event, then setting it again when a callback slipped in. */
  function ClearWake(p: Pump): Pump {
    p.(wake := false, rechecking := true)
  }

  function Recheck(p: Pump): Pump {
    p.(wake := p.wake || p.completed != [], rechecking := false)
  }

  // ---- deadlines -----------------------------------------------------------------------------

  predicate SleeperCurrent(fibers: seq<Fiber>, e: Sleeper) {
    e.fiber < |fibers| && !fibers[e.fiber].done && fibers[e.fiber].token == e.token
  }

  function Verdict(w: World, p: Pump, guarded: bool): Option<Err> {
    if guarded then w.check(p.calls) else None
  }

  function AfterCheck(p: Pump, guarded: bool): Pump {
    if guarded then p.(calls := p.calls + 1) else p
  }

  /** Pops the first sleeper, checks for cancellation and makes the fiber ready. */
  function FireSleeper(w: World, p: Pump): Pump
    requires p.sleepers != []
  {
    var e := p.sleepers[0];
    var q := p.(sleepers := p.sleepers[1..]);
    if !SleeperCurrent(p.fibers, e) then q
    else
      var verdict := Verdict(w, p, e.guarded);
      AfterCheck(q, e.guarded).(ready :=
        p.ready + [Ready(e.fiber, if verdict.Some? then Failure(verdict.value) else Plain)])
  }

  function FireSleepers(w: World, p: Pump, now: int): (q: Pump)
    ensures q.waiters == p.waiters && q.deadlines == p.deadlines
    decreases |p.sleepers|
  {
    if p.sleepers == [] || p.sleepers[0].at > now then p else FireSleepers(w, FireSleeper(w, p), now)
  }

  predicate DeadlinesKnown(p: Pump) {
    forall d | 0 <= d < |p.deadlines| :: p.deadlines[d].waiter < |p.waiters|
  }

  /** Pops the first future deadline; a waiter that is still active times out. */
  function FireDeadline(p: Pump): (q: Pump)
    requires DeadlinesKnown(p) && p.deadlines != []
    ensures DeadlinesKnown(q) && |q.deadlines| < |p.deadlines|
  {
    var k := p.deadlines[0].waiter;
    var q := p.(deadlines := p.deadlines[1..]);
    if p.waiters[k].active then Wake(q, k, Failure(FutureTimeout)) else q
  }

  function FireDeadlines(p: Pump, now: int): (q: Pump)
    requires DeadlinesKnown(p)
    decreases |p.deadlines|
  {
    if p.deadlines == [] || p.deadlines[0].at > now then p else FireDeadlines(FireDeadline(p), now)
  }

  // ---- cancellation polling ------------------------------------------------------------------

  function PollWaiter(w: World, p: Pump, k: nat): (q: Pump)
    requires k < |p.waiters|
    ensures |q.waiters| == |p.waiters| && |q.fibers| == |p.fibers|
  {
    if !p.waiters[k].active then p
    else if !Live(p.fibers, p.waiters[k]) then Deactivate(p, k)
    else
      var verdict := Verdict(w, p, p.waiters[k].guarded);
      var q := AfterCheck(p, p.waiters[k].guarded);
      if verdict.Some? then Wake(q, k, Failure(verdict.value)) else q
  }

  function PollList(w: World, p: Pump, list: seq<nat>): (q: Pump)
    requires Known(p, list)
    ensures |q.waiters| == |p.waiters| && |q.fibers| == |p.fibers|
    decreases |list|
  {
    if list == [] then p else PollList(w, PollWaiter(w, p, list[0]), list[1..])
  }

  function ActiveOnly(p: Pump, list: seq<nat>): (kept: seq<nat>)
    requires Known(p, list)
    ensures forall j | 0 <= j < |kept| :: kept[j] < |p.waiters| && kept[j] in list && p.waiters[kept[j]].active
    ensures forall j | 0 <= j < |list| && p.waiters[list[j]].active :: list[j] in kept
  {
    if list == [] then []
    else (if p.waiters[list[0]].active then [list[0]] else []) + ActiveOnly(p, list[1..])
  }

  function Prune(p: Pump, f: Fut): Pump
    requires f in p.futureWaiters && Known(p, p.futureWaiters[f])
  {
    var keep := ActiveOnly(p, p.futureWaiters[f]);
    p.(futureWaiters := if keep != [] then p.futureWaiters[f := keep] else p.futureWaiters - {f})
  }

  /** The part of `_poll_cancellation` for the waiters of one future. */
  function PollFuture(w: World, p: Pump, f: Fut): (q: Pump)
    requires f in p.futureWaiters && Known(p, p.futureWaiters[f])
  {
    var q := PollList(w, p, p.futureWaiters[f]);
    PollListKeeps(w, p, p.futureWaiters[f]);
    Prune(q, f)
  }

  lemma {:induction false} PollListKeeps(w: World, p: Pump, list: seq<nat>)
    requires Known(p, list)
    ensures PollList(w, p, list).futureWaiters == p.futureWaiters
    ensures PollList(w, p, list).sleepers == p.sleepers
    decreases |list|
  {
    if list != [] {
      PollListKeeps(w, PollWaiter(w, p, list[0]), list[1..]);
    }
  }

  /** The check on the sleeper at position `j`; when it raises, the entry leaves the heap. */
  function PollSleeper(w: World, p: Pump, j: nat): (q: Pump)
    requires j < |p.sleepers|
  {
    var e := p.sleepers[j];
    var without := p.sleepers[..j] + p.sleepers[j + 1..];
    if !SleeperCurrent(p.fibers, e) then p.(sleepers := without)
    else
      var verdict := Verdict(w, p, e.guarded);
      var q := AfterCheck(p, e.guarded);
      if verdict.Some? then q.(sleepers := without, ready := p.ready + [Ready(e.fiber, Failure(verdict.value))]) else q
  }

  /** The second half of `_poll_cancellation`, from heap position `j` on. */
  function PollSleepers(w: World, p: Pump, j: nat): (q: Pump)
    requires j <= |p.sleepers|
    decreases |p.sleepers| - j
  {
    if j == |p.sleepers| then p
    else
      var q := PollSleeper(w, p, j);
      PollSleepers(w, q, if |q.sleepers| == |p.sleepers| then j + 1 else j)
  }
}
