/**
 The hand-over of requests from submitting threads to the event loop: submitters put a request on the
 queue, then take the lock and schedule a drain unless one is scheduled; a drain pops a bounded batch,
 then takes the lock and schedules the next one if anything is left.
 */
module Ingress {

  /** Requests one drain pops at most. */
  const BATCH: nat := 4096

  datatype DrainPhase = Idle | Popping(popped: nat) | AtLock

  /** `callbacks` counts the drains scheduled on the loop, `submitters` those between their put and their
      lock; `submitted` and `dispatched` record the requests in order. */
  datatype Gate = Gate(
    queue: seq<nat>,
    scheduled: bool,
    callbacks: nat,
    drain: DrainPhase,
    submitters: nat,
    submitted: seq<nat>,
    dispatched: seq<nat>)

  const EMPTY_GATE := Gate([], false, 0, Idle, 0, [], [])

  datatype Step =
    | Put(request: nat)
    | SubmitLock
    | StartDrain
    | Pop
    | StopPopping
    | DrainLock

  predicate Enabled(g: Gate, s: Step) {
    match s
    case Put(_) => true
    case SubmitLock => g.submitters > 0
    case StartDrain => g.callbacks > 0 && g.drain.Idle?
    case Pop => g.drain.Popping? && g.drain.popped < BATCH && g.queue != []
    case StopPopping => g.drain.Popping? && (g.drain.popped >= BATCH || g.queue == [])
    case DrainLock => g.drain.AtLock?
  }

  function Apply(g: Gate, s: Step): Gate
    requires Enabled(g, s)
  {
    match s
    case Put(r) => g.(queue := g.queue + [r], submitters := g.submitters + 1, submitted := g.submitted + [r])
    case SubmitLock =>
      if g.scheduled then g.(submitters := g.submitters - 1)
      else g.(submitters := g.submitters - 1, scheduled := true, callbacks := g.callbacks + 1)
    case StartDrain => g.(callbacks := g.callbacks - 1, drain := Popping(0))
    case Pop =>
      g.(dispatched := g.dispatched + [g.queue[0]], queue := g.queue[1..], drain := Popping(g.drain.popped + 1))
    case StopPopping => g.(drain := AtLock)
    case DrainLock =>
      g.(drain := Idle, scheduled := g.queue != [], callbacks := if g.queue != [] then g.callbacks + 1 else g.callbacks)
  }

  // ---- safety --------------------------------------------------------------------------------

  /** Drains pending or running. */
  function Drains(g: Gate): nat { g.callbacks + if g.drain.Idle? then 0 else 1 }

  ghost predicate Inv(g: Gate) {
    && Drains(g) == (if g.scheduled then 1 else 0)
    && (g.queue != [] ==> g.scheduled || g.submitters > 0)
    && g.dispatched + g.queue == g.submitted
  }

  lemma StepOk(g: Gate, s: Step)
    requires Inv(g) && Enabled(g, s)
    ensures Inv(Apply(g, s))
  {
    match s
    case Pop => assert g.dispatched + [g.queue[0]] + g.queue[1..] == g.dispatched + g.queue;
    case _ =>
  }

  ghost predicate Possible(g: Gate, run: seq<Step>)
    decreases |run|
  {
    run == [] || (Enabled(g, run[0]) && Possible(Apply(g, run[0]), run[1..]))
  }

  ghost function After(g: Gate, run: seq<Step>): Gate
    requires Possible(g, run)
    decreases |run|
  {
    if run == [] then g else After(Apply(g, run[0]), run[1..])
  }

  lemma {:induction false} RunOk(g: Gate, run: seq<Step>)
    requires Inv(g) && Possible(g, run)
    ensures Inv(After(g, run))
    decreases |run|
  {
    if run != [] {
      StepOk(g, run[0]);
      RunOk(Apply(g, run[0]), run[1..]);
    }
  }

  /** Whenever the queue holds a request, exactly one drain is pending or running, or none is and a
      submitter is still on its way to the lock; requests are dispatched once each, in the order of their
      puts. */
  lemma NoRequestStranded(run: seq<Step>)
    requires Possible(EMPTY_GATE, run)
    ensures var g := After(EMPTY_GATE, run);
      && Drains(g) <= 1
      && (g.queue != [] ==> Drains(g) == 1 || g.submitters > 0)
      && g.dispatched + g.queue == g.submitted
  {
    RunOk(EMPTY_GATE, run);
  }

  // ---- progress ------------------------------------------------------------------------------

  /** Steps the submitters and the loop owe before everything put has been dispatched. */
  function Owed(g: Gate): nat {
    var n := |g.queue|;
    6 * n + 6 * g.submitters
    + (if g.callbacks == 0 then 0 else g.callbacks * if n > 0 then 2 else 5)
    + match g.drain
      case Idle => 0
      case Popping(k) => if n > 0 && k < BATCH then 1 else 4
      case AtLock => 3
  }

  /** Without new puts, each further step brings the gate closer to rest. */
  lemma StepOwes(g: Gate, s: Step)
    requires Inv(g) && Enabled(g, s) && !s.Put?
    ensures Owed(Apply(g, s)) < Owed(g)
  {
  }

  /** At rest, when nothing but a put could happen, every request has been dispatched, once, in order. */
  lemma RestMeansDispatched(run: seq<Step>)
    requires Possible(EMPTY_GATE, run)
    requires var g := After(EMPTY_GATE, run); forall s :: Enabled(g, s) ==> s.Put?
    ensures var g := After(EMPTY_GATE, run); g.queue == [] && g.dispatched == g.submitted && !g.scheduled
  {
    RunOk(EMPTY_GATE, run);
    var g := After(EMPTY_GATE, run);
    assert !Enabled(g, SubmitLock) && !Enabled(g, StartDrain) && !Enabled(g, Pop);
    assert !Enabled(g, StopPopping) && !Enabled(g, DrainLock);
  }

  predicate NoPuts(run: seq<Step>) {
    forall k | 0 <= k < |run| :: !run[k].Put?
  }

  /** Once the submitters stop, rest comes within a bounded number of steps. */
  lemma {:induction false} RestComes(g: Gate, run: seq<Step>)
    requires Inv(g) && Possible(g, run) && NoPuts(run)
    ensures |run| <= Owed(g)
    decreases |run|
  {
    if run != [] {
      StepOwes(g, run[0]);
      StepOk(g, run[0]);
      assert NoPuts(run[1..]) by { assert forall k | 0 <= k < |run[1..]| :: run[1..][k] == run[k + 1]; }
      RestComes(Apply(g, run[0]), run[1..]);
    }
  }

  // ---- as the source writes it ---------------------------------------------------------------

  class IngressQueue {
    var g: Gate

    ghost predicate Valid()
      reads this
    {
      Inv(g)
    }

    constructor ()
      ensures Valid() && g == EMPTY_GATE
    {
      g := EMPTY_GATE;
    }

    /** Other submitters, at any point where the loop does not hold the lock. */
    method Interfere()
      requires Valid()
      modifies this`g
      ensures Valid() && SubmittersOnly(old(g), g)
    {
      var steps: nat := *;
      while steps > 0
        invariant Valid() && SubmittersOnly(old(g), g)
      {
        var which: bool, request: nat := *, *;
        if which {
          StepOk(g, Put(request));
          g := g.(queue := g.queue + [request], submitters := g.submitters + 1, submitted := g.submitted + [request]);
        } else if g.submitters > 0 {
          Lock();
        }
        steps := steps - 1;
      }
    }

    /** The locked part of `submit_request`. */
    method Lock()
      requires Valid() && g.submitters > 0
      modifies this`g
      ensures Valid() && g == Apply(old(g), SubmitLock)
    {
      StepOk(g, SubmitLock);
      g := g.(submitters := g.submitters - 1);
      if !g.scheduled {
        g := g.(scheduled := true, callbacks := g.callbacks + 1);
      }
    }

    /** `_drain_ingress`: pops until the queue is empty or the batch is full; what it pops it dispatches in
        order, and it leaves a successor scheduled exactly when it leaves something on the queue. */
    method DrainIngress() returns (ghost popped: nat)
      requires Valid() && g.drain.Idle? && g.callbacks > 0
      modifies this`g
      ensures Valid() && g.drain.Idle?
      ensures popped <= BATCH && |g.dispatched| == |old(g).dispatched| + popped && old(g).dispatched <= g.dispatched
      ensures g.scheduled == (g.queue != []) && g.callbacks == (if g.queue != [] then 1 else 0)
      ensures old(g).submitted <= g.submitted && (|old(g).queue| <= popped || popped == BATCH)
    {
      StepOk(g, StartDrain);
      g := g.(callbacks := g.callbacks - 1, drain := Popping(0));
      while g.drain.popped < BATCH && g.queue != []
        invariant Valid() && g.drain.Popping? && g.drain.popped <= BATCH
        invariant |g.dispatched| == |old(g).dispatched| + g.drain.popped && old(g).dispatched <= g.dispatched
        invariant old(g).submitted <= g.submitted
        decreases BATCH - g.drain.popped
      {
        StepOk(g, Pop);
        g := g.(dispatched := g.dispatched + [g.queue[0]], queue := g.queue[1..], drain := Popping(g.drain.popped + 1));
        Interfere();
      }
      popped := g.drain.popped;
      StepOk(g, StopPopping);
      g := g.(drain := AtLock);
      Interfere();
      StepOk(g, DrainLock);
      g := g.(scheduled := false, drain := Idle);
      if g.queue != [] {
        g := g.(scheduled := true, callbacks := g.callbacks + 1);
      }
    }
  }

  /** Between two states only submitters have acted. */
  ghost predicate SubmittersOnly(before: Gate, after: Gate) {
    && after.drain == before.drain && after.dispatched == before.dispatched
    && before.queue <= after.queue && before.submitted <= after.submitted
  }
}
