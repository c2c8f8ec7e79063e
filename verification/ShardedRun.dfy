/**
 A source shared by several pumps and the collection of what they return.  A failure stops the source:
 afterwards each pump can finish at most the one pull it had already begun.
 */
module ShardedRun {
  import opened Prelude

  // ---- the stop flag -------------------------------------------------------------------------

  /** `midPull[k]`: lane `k` has passed the stop test and has not yet taken from the source; `late[k]`
      counts its takes after the stop. */
  datatype Shared = Shared(stopped: bool, midPull: seq<bool>, late: seq<nat>)

  datatype Step = Check(lane: nat) | Take(lane: nat) | Stop

  predicate Enabled(s: Shared, step: Step) {
    match step
    case Check(k) => k < |s.midPull| == |s.late| && !s.midPull[k]
    case Take(k) => k < |s.midPull| == |s.late| && s.midPull[k]
    case Stop => true
  }

  function Apply(s: Shared, step: Step): Shared
    requires Enabled(s, step)
  {
    match step
    case Check(k) => if s.stopped then s else s.(midPull := s.midPull[k := true])
    case Take(k) =>
      s.(midPull := s.midPull[k := false], late := if s.stopped then s.late[k := s.late[k] + 1] else s.late)
    case Stop => s.(stopped := true)
  }

  ghost predicate Possible(s: Shared, run: seq<Step>)
    decreases |run|
  {
    run == [] || (Enabled(s, run[0]) && Possible(Apply(s, run[0]), run[1..]))
  }

  ghost function After(s: Shared, run: seq<Step>): Shared
    requires Possible(s, run)
    decreases |run|
  {
    if run == [] then s else After(Apply(s, run[0]), run[1..])
  }

  function Open(lanes: nat): Shared {
    Shared(false, seq(lanes, _ => false), seq(lanes, _ => 0))
  }

  predicate LateOk(s: Shared) {
    && |s.midPull| == |s.late|
    && forall k | 0 <= k < |s.late| ::
       s.late[k] + (if s.midPull[k] then 1 else 0) <= 1 && (!s.stopped ==> s.late[k] == 0)
  }

  /** The takes of lane `k` in a run that come after the source was stopped. */
  function TakesAfterStop(run: seq<Step>, stopped: bool, k: nat): nat {
    if run == [] then 0
    else
      (if stopped && run[0] == Take(k) then 1 else 0)
      + TakesAfterStop(run[1..], stopped || run[0] == Step.Stop, k)
  }

  /** `late` counts exactly those. */
  lemma {:induction false} LateCounts(s: Shared, run: seq<Step>, k: nat)
    requires LateOk(s) && Possible(s, run) && k < |s.late|
    ensures k < |After(s, run).late| && After(s, run).late[k] == s.late[k] + TakesAfterStop(run, s.stopped, k)
    decreases |run|
  {
    if run != [] {
      LateStep(s, run[0]);
      LateCounts(Apply(s, run[0]), run[1..], k);
    }
  }

  lemma LateStep(s: Shared, step: Step)
    requires LateOk(s) && Enabled(s, step)
    ensures var q := Apply(s, step);
      && LateOk(q) && |q.midPull| == |s.midPull| && (s.stopped ==> q.stopped)
      && forall k: nat | k < |s.midPull| && !Own(step, k) :: q.midPull[k] == s.midPull[k] && q.late[k] == s.late[k]
  {
  }

  lemma {:induction false} LateKept(s: Shared, run: seq<Step>)
    requires LateOk(s) && Possible(s, run)
    ensures LateOk(After(s, run)) && |After(s, run).late| == |s.late|
    decreases |run|
  {
    if run != [] { LateKept(Apply(s, run[0]), run[1..]); }
  }

  /** After the stop no lane takes from the source more than once. */
  lemma OneLatePull(lanes: nat, run: seq<Step>, lane: nat)
    requires Possible(Open(lanes), run) && lane < lanes
    ensures lane < |After(Open(lanes), run).late| && After(Open(lanes), run).late[lane] <= 1
  {
    LateKept(Open(lanes), run);
  }

  // ---- as the source writes it ---------------------------------------------------------------

  /** The steps lane `k` takes itself. */
  predicate Own(step: Step, k: nat) {
    (step.Check? && step.lane == k) || (step.Take? && step.lane == k)
  }

  class SharedRefreshableSource {
    var s: Shared

    constructor (lanes: nat)
      ensures s == Open(lanes) && LateOk(s)
    {
      s := Open(lanes);
    }

    /** What the other lanes may do meanwhile, stopping included. */
    method Interfere(lane: nat)
      requires LateOk(s) && lane < |s.midPull|
      modifies this
      ensures LateOk(s) && |s.midPull| == |old(s).midPull|
      ensures s.midPull[lane] == old(s).midPull[lane] && s.late[lane] == old(s).late[lane]
        && (old(s).stopped ==> s.stopped)
    {
      var steps: nat := *;
      while steps > 0
        invariant LateOk(s) && |s.midPull| == |old(s).midPull|
        invariant s.midPull[lane] == old(s).midPull[lane] && s.late[lane] == old(s).late[lane]
          && (old(s).stopped ==> s.stopped)
      {
        var step: Step := *;
        if Enabled(s, step) && !Own(step, lane) {
          LateStep(s, step);
          s := Apply(s, step);
        }
        steps := steps - 1;
      }
    }

    method Stop()
      requires LateOk(s)
      modifies this
      ensures s == Apply(old(s), Step.Stop) && LateOk(s)
    {
      s := s.(stopped := true);
    }

    /** Nothing is taken for no room or after a stop that was seen; a stop that comes between the test and the
        take lets this one pull through.  `offered` is what the wrapped source gives when asked for `maxItems`. */
    method Pull(lane: nat, maxItems: int, offered: seq<int>) returns (values: seq<int>)
      requires LateOk(s) && lane < |s.midPull| && !s.midPull[lane]
      requires |offered| <= Max(0, maxItems)
      modifies this
      ensures LateOk(s) && |s.midPull| == |old(s).midPull| && !s.midPull[lane]
      ensures values == if maxItems <= 0 || old(s).stopped then [] else offered
      ensures maxItems <= 0 || old(s).stopped ==> s.late[lane] == old(s).late[lane]
      ensures s.late[lane] <= old(s).late[lane] + 1 && (s.late[lane] > old(s).late[lane] ==> s.stopped)
    {
      values := [];
      if maxItems <= 0 || s.stopped { return; }
      LateStep(s, Check(lane));
      s := Apply(s, Check(lane));
      Interfere(lane);
      LateStep(s, Take(lane));
      s := Apply(s, Take(lane));
      values := offered;
    }

    /** A change is reported exactly when the wrapped source has a waiter that reports it and the source is not
        stopped, neither before the wait nor after it. */
    method WaitForChange(lane: nat, hasWaiter: bool, woken: bool) returns (changed: bool)
      requires LateOk(s) && lane < |s.midPull|
      modifies this
      ensures LateOk(s) && (changed <==> hasWaiter && woken && !old(s).stopped && !s.stopped)
      ensures old(s).stopped ==> s.stopped
    {
      if s.stopped || !hasWaiter { return false; }
      Interfere(lane);
      changed := woken && !s.stopped;
    }
  }

  // ---- collecting ----------------------------------------------------------------------------

  datatype Outcome = Finished(values: seq<int>) | Failed(error: int)

  datatype Collected = Results(values: seq<int>) | Raised(error: int)

  function Flat(outcomes: seq<Outcome>): seq<int> {
    if outcomes == [] then []
    else
      var last := outcomes[|outcomes| - 1];
      Flat(outcomes[..|outcomes| - 1]) + if last.Finished? then last.values else []
  }

  /** The lanes' futures, in the order they complete. */
  method Collect(outcomes: seq<Outcome>) returns (collected: Collected, stopped: bool)
    ensures stopped <==> exists k :: 0 <= k < |outcomes| && outcomes[k].Failed?
    ensures stopped <==> collected.Raised?
    ensures collected.Raised? ==> exists k :: 0 <= k < |outcomes| && outcomes[k] == Failed(collected.error)
                                              && forall j | 0 <= j < k :: outcomes[j].Finished?
    ensures collected.Results? ==> collected.values == Flat(outcomes)
  {
    var results: seq<int>, firstError: seq<int> := [], [];
    for i := 0 to |outcomes|
      invariant results == Flat(outcomes[..i])
      invariant firstError == [] <==> forall k | 0 <= k < i :: outcomes[k].Finished?
      invariant firstError != [] ==> exists k :: 0 <= k < i && outcomes[k] == Failed(firstError[0])
                                                 && forall j | 0 <= j < k :: outcomes[j].Finished?
    {
      assert outcomes[..i + 1][..i] == outcomes[..i];
      match outcomes[i] {
        case Finished(values) => results := results + values;
        case Failed(error) => if firstError == [] { firstError := [error]; }
      }
    }
    assert outcomes[..|outcomes|] == outcomes;
    stopped := firstError != [];
    collected := if stopped then Raised(firstError[0]) else Results(results);
  }

  lemma {:induction false} FlatConcat(a: seq<Outcome>, b: seq<Outcome>)
    ensures Flat(a + b) == Flat(a) + Flat(b)
  {
    if b == [] {
      assert a + b == a;
    } else {
      assert (a + b)[..|a + b| - 1] == a + b[..|b| - 1];
      FlatConcat(a, b[..|b| - 1]);
    }
  }

  /** Each lane's results are there once, in the lane's place; a failed lane has none. */
  lemma EachInPlace(outcomes: seq<Outcome>, k: nat)
    requires k < |outcomes|
    ensures Flat(outcomes)
         == Flat(outcomes[..k]) + (if outcomes[k].Finished? then outcomes[k].values else []) + Flat(outcomes[k + 1..])
    ensures Flat([]) == []
  {
    hide Flat;
    var before, o, rest := outcomes[..k], outcomes[k], outcomes[k + 1..];
    FlatOne(o);
    FlatConcat(before, [o]);
    FlatConcat(before + [o], rest);
    assert outcomes == before + [o] + rest;
  }

  lemma FlatOne(o: Outcome)
    ensures Flat([]) == [] && Flat([o]) == if o.Finished? then o.values else []
  {
    assert [o][..0] == [];
  }

  /** Whatever order the lanes complete in, the same results are collected, as a bag. */
  lemma {:induction false} AnyOrder(a: seq<Outcome>, b: seq<Outcome>)
    requires multiset(a) == multiset(b)
    ensures multiset(Flat(a)) == multiset(Flat(b))
    decreases |a|
  {
    hide Flat;
    if a == [] {
      assert b == [] by { assert |multiset(b)| == 0; }
    } else {
      var k := TakeOut(a, b);
      Removed(a, 0);
      Removed(b, k);
      AnyOrder(a[..0] + a[0 + 1..], b[..k] + b[k + 1..]);
    }
  }

  /** Taking one outcome out takes its values out. */
  lemma {:induction false} Removed(b: seq<Outcome>, k: nat)
    requires k < |b|
    ensures multiset(Flat(b)) == multiset(Flat(b[..k] + b[k + 1..])) + multiset(Flat([b[k]]))
  {
    hide Flat;
    assert b == b[..k] + [b[k]] + b[k + 1..];
    FlatConcat(b[..k] + [b[k]], b[k + 1..]);
    FlatConcat(b[..k], [b[k]]);
    FlatConcat(b[..k], b[k + 1..]);
  }
}
