/**
 The lazy run as a machine: which jobs a wait finds finished is not up to it.  Over all its schedules a
 returned run has read its whole source if and only if the source is no longer than the pool.
 */
module ProcessSchedules {
  import opened ProcessModel

  /** Before the first submission; filling the pool; collecting what a wait found; returned. */
  datatype Control = First | Filling | Collecting(done: set<nat>) | Stopped

  datatype Run = Run(s: State, at: Control)

  const START := Run(IDLE, First)

  datatype Step = SubmitOne | SeeEnd | WaitFor(done: set<nat>) | CollectOne(id: nat)

  predicate MaySubmit(max: nat, r: Run) {
    !r.s.sourceExhausted && (r.at.First? || (r.at.Filling? && r.s.futures != {} && |r.s.futures| < max))
  }

  /** A wait finds some of the outstanding jobs finished, once the pool is full or the source has ended. */
  predicate Enabled(source: seq<Pull>, outcome: nat -> Outcome, max: nat, r: Run, step: Step) {
    match step
    case SubmitOne => MaySubmit(max, r) && |r.s.submitted| < |source| && source[|r.s.submitted|].Submits?
    case SeeEnd => MaySubmit(max, r) && |r.s.submitted| == |source|
    case WaitFor(done) =>
      && r.at.Filling? && (|r.s.futures| >= max || r.s.sourceExhausted) && done != {} && done <= r.s.futures
    case CollectOne(id) => r.at.Collecting? && id in r.at.done && id < |r.s.submitted| && outcome(id).Value?
  }

  function Apply(source: seq<Pull>, outcome: nat -> Outcome, max: nat, r: Run, step: Step): Run
    requires Enabled(source, outcome, max, r, step)
  {
    match step
    case SubmitOne => Run(Submitted(r.s, source[|r.s.submitted|].item), Filling)
    case SeeEnd => Run(r.s.(sourceExhausted := true), if r.at.First? then Stopped else Filling)
    case WaitFor(done) => Run(r.s, Collecting(done))
    case CollectOne(id) => AfterCollect(outcome, r.s, r.at.done, id)
  }

  /** The loop goes on while jobs are outstanding. */
  function AfterCollect(outcome: nat -> Outcome, s: State, done: set<nat>, id: nat): Run
    requires id < |s.submitted|
  {
    var q := Reported(outcome, s, id);
    Run(q, if done - {id} != {} then Collecting(done - {id}) else if q.futures != {} then Filling else Stopped)
  }

  ghost predicate Possible(source: seq<Pull>, outcome: nat -> Outcome, max: nat, r: Run, steps: seq<Step>)
    decreases |steps|
  {
    steps == [] ||
    (Enabled(source, outcome, max, r, steps[0])
     && Possible(source, outcome, max, Apply(source, outcome, max, r, steps[0]), steps[1..]))
  }

  ghost function After(source: seq<Pull>, outcome: nat -> Outcome, max: nat, r: Run, steps: seq<Step>): Run
    requires Possible(source, outcome, max, r, steps)
    decreases |steps|
  {
    if steps == [] then r else After(source, outcome, max, Apply(source, outcome, max, r, steps[0]), steps[1..])
  }

  lemma {:induction false} Extend(source: seq<Pull>, outcome: nat -> Outcome, max: nat, r: Run, steps: seq<Step>,
      step: Step)
    requires Possible(source, outcome, max, r, steps)
    requires Enabled(source, outcome, max, After(source, outcome, max, r, steps), step)
    ensures Possible(source, outcome, max, r, steps + [step])
    ensures After(source, outcome, max, r, steps + [step])
         == Apply(source, outcome, max, After(source, outcome, max, r, steps), step)
    decreases |steps|
  {
    if steps == [] {
      assert steps + [step] == [step];
    } else {
      assert (steps + [step])[1..] == steps[1..] + [step];
      hide Apply, Enabled;
      Extend(source, outcome, max, Apply(source, outcome, max, r, steps[0]), steps[1..], step);
    }
  }

  // ---- a source that fits the pool is read whole ---------------------------------------------

  ghost predicate ControlOk(source: seq<Pull>, max: nat, r: Run) {
    && (forall id | id in r.s.futures :: id < |r.s.submitted|)
    && |r.s.submitted| <= |source| && (r.s.sourceExhausted ==> |r.s.submitted| == |source|)
    && (r.at.Collecting? || r.at.Stopped? ==> |r.s.submitted| == |source| || |r.s.submitted| >= max)
  }

  lemma StepOk(source: seq<Pull>, outcome: nat -> Outcome, max: nat, r: Run, step: Step)
    requires ControlOk(source, max, r) && Enabled(source, outcome, max, r, step)
    ensures ControlOk(source, max, Apply(source, outcome, max, r, step))
  {
    IdsBelow(r.s.futures, |r.s.submitted|);
  }

  lemma {:induction false} RunOk(source: seq<Pull>, outcome: nat -> Outcome, max: nat, r: Run, steps: seq<Step>)
    requires ControlOk(source, max, r) && Possible(source, outcome, max, r, steps)
    ensures ControlOk(source, max, After(source, outcome, max, r, steps))
    decreases |steps|
  {
    if steps != [] {
      StepOk(source, outcome, max, r, steps[0]);
      hide ControlOk, Apply, Enabled;
      RunOk(source, outcome, max, Apply(source, outcome, max, r, steps[0]), steps[1..]);
    }
  }

  /** Whatever the waits find, a run that returns has submitted as many jobs as the pool holds, or all. */
  lemma ReturnsFull(source: seq<Pull>, outcome: nat -> Outcome, max: nat, steps: seq<Step>)
    requires Possible(source, outcome, max, START, steps) && After(source, outcome, max, START, steps).at.Stopped?
    ensures var n := |After(source, outcome, max, START, steps).s.submitted|;
      n <= |source| && (n == |source| || n >= max)
  {
    RunOk(source, outcome, max, START, steps);
  }

  // ---- a longer one need not be --------------------------------------------------------------

  ghost predicate Reaches(source: seq<Pull>, outcome: nat -> Outcome, max: nat, steps: seq<Step>, r: Run) {
    Possible(source, outcome, max, START, steps) && After(source, outcome, max, START, steps) == r
  }

  predicate AllGood(source: seq<Pull>, outcome: nat -> Outcome) {
    && (forall k | 0 <= k < |source| :: source[k].Submits?)
    && (forall id: nat | id < |source| :: outcome(id).Value?)
  }

  function Ids(n: nat): (ids: set<nat>)
    ensures (forall id: nat :: id in ids <==> id < n) && |ids| == n
  {
    if n == 0 then {} else Ids(n - 1) + {n - 1}
  }

  /** The pool fills before anything is collected. */
  lemma {:induction false} FillPool(source: seq<Pull>, outcome: nat -> Outcome, max: nat, n: nat)
      returns (steps: seq<Step>, r: Run)
    requires AllGood(source, outcome) && 1 <= n <= max && n <= |source|
    ensures Reaches(source, outcome, max, steps, r) && r.at.Filling?
    ensures |r.s.submitted| == n && r.s.futures == Ids(n) && !r.s.sourceExhausted
  {
    var before: seq<Step>, q := [], START;
    assert Reaches(source, outcome, max, before, q);
    if n > 1 { before, q := FillPool(source, outcome, max, n - 1); }
    Extend(source, outcome, max, START, before, SubmitOne);
    steps, r := before + [SubmitOne], Apply(source, outcome, max, q, SubmitOne);
  }

  /** A wait finds them all finished, and they are collected one after another. */
  lemma {:induction false} CollectAll(source: seq<Pull>, outcome: nat -> Outcome, max: nat, before: seq<Step>, q: Run,
      n: nat)
    returns (steps: seq<Step>, r: Run)
    requires AllGood(source, outcome) && Reaches(source, outcome, max, before, q)
    requires n >= 1 && q.at == Collecting(Ids(n)) && q.s.futures == Ids(n) && n <= |q.s.submitted| <= |source|
    ensures Reaches(source, outcome, max, steps, r) && r.at.Stopped? && r.s.submitted == q.s.submitted
    decreases n
  {
    hide AllGood, Ids, Possible, After;
    steps, r := CollectLast(source, outcome, max, before, q, n);
    if n > 1 { steps, r := CollectAll(source, outcome, max, steps, r, n - 1); }
  }

  lemma CollectLast(source: seq<Pull>, outcome: nat -> Outcome, max: nat, before: seq<Step>, q: Run, n: nat)
    returns (steps: seq<Step>, r: Run)
    requires AllGood(source, outcome) && Reaches(source, outcome, max, before, q)
    requires n >= 1 && q.at == Collecting(Ids(n)) && q.s.futures == Ids(n) && n <= |q.s.submitted| <= |source|
    ensures Reaches(source, outcome, max, steps, r) && r.s.submitted == q.s.submitted && r.s.futures == Ids(n - 1)
    ensures r.at == if n > 1 then Collecting(Ids(n - 1)) else Stopped
  {
    hide AllGood, Ids, Possible, After;
    var step := CollectOne(n - 1);
    GoodJob(source, outcome, n - 1);
    IdsLess(n);
    Extend(source, outcome, max, START, before, step);
    steps, r := before + [step], Apply(source, outcome, max, q, step);
  }

  lemma GoodJob(source: seq<Pull>, outcome: nat -> Outcome, id: nat)
    requires AllGood(source, outcome) && id < |source|
    ensures outcome(id).Value?
  {
  }

  lemma IdsLess(n: nat)
    requires n >= 1
    ensures n - 1 in Ids(n) && Ids(n) - {n - 1} == Ids(n - 1) && (Ids(n - 1) == {} <==> n == 1)
  {
    if n > 1 { assert 0 in Ids(n - 1); }
  }

  /** A run of good jobs that returns when the pool's first filling has finished. */
  lemma ShortRun(source: seq<Pull>, outcome: nat -> Outcome, max: nat) returns (steps: seq<Step>)
    requires AllGood(source, outcome) && 1 <= max < |source|
    ensures Possible(source, outcome, max, START, steps)
    ensures var r := After(source, outcome, max, START, steps); r.at.Stopped? && |r.s.submitted| == max
  {
    var q;
    steps, q := FillPool(source, outcome, max, max);
    var all := Ids(max);
    assert 0 in all;
    Extend(source, outcome, max, START, steps, WaitFor(all));
    steps, q := steps + [WaitFor(all)], Apply(source, outcome, max, q, WaitFor(all));
    steps, q := CollectAll(source, outcome, max, steps, q, max);
  }

  /** Every returning run reads its whole source. */
  ghost predicate AlwaysWhole(source: seq<Pull>, outcome: nat -> Outcome, max: nat) {
    forall steps | Possible(source, outcome, max, START, steps)
        && After(source, outcome, max, START, steps).at.Stopped? ::
      |After(source, outcome, max, START, steps).s.submitted| == |source|
  }

  /** For good jobs, every returning run reads the whole source if and only if the source fits the pool. */
  lemma WholeSourceExactly(source: seq<Pull>, outcome: nat -> Outcome, max: nat)
    requires AllGood(source, outcome) && max >= 1
    ensures AlwaysWhole(source, outcome, max) <==> |source| <= max
  {
    if |source| <= max {
      forall steps | Possible(source, outcome, max, START, steps)
          && After(source, outcome, max, START, steps).at.Stopped?
        ensures |After(source, outcome, max, START, steps).s.submitted| == |source|
      {
        ReturnsFull(source, outcome, max, steps);
      }
    } else {
      var steps := ShortRun(source, outcome, max);
    }
  }

  // ---- following a run step by step ----------------------------------------------------------

  /** One more step of a run that has come to `r`. */
  lemma Follow(source: seq<Pull>, outcome: nat -> Outcome, max: nat, steps: seq<Step>, r: Run, step: Step)
    requires Reaches(source, outcome, max, steps, r) && Enabled(source, outcome, max, r, step)
    ensures Reaches(source, outcome, max, steps + [step], Apply(source, outcome, max, r, step))
  {
    Extend(source, outcome, max, START, steps, step);
  }
}
