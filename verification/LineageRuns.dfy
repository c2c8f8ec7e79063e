/**
 Lineage over whole runs: components complete, are sampled, and are resumed, each with the lineage the
 readiness calculation returned, in any order and with any overrides.  A stable result rests on stable
 ancestors only, and every origin of instability was introduced at or above the component that carries it.
 */
module LineageRuns {
  import opened Prelude
  import opened Readiness

  /** A component waits in some other state of its life, holds a sampled result, or is done. */
  datatype Status =
    | Pending(lifecycle: Lifecycle)
    | SampledAs(lineage: Lineage)
    | Completed(lineage: Lineage, overridden: bool)

  /** `introduced` records the overrides used: at which component, with which origin. */
  datatype World = World(parents: map<nat, seq<nat>>, status: map<nat, Status>, introduced: set<(nat, string)>)

  predicate StatusOk(s: Status) {
    match s
    case Pending(l) => l in {Queued, Running, Failed}
    case SampledAs(l) => ValidLineage(l)
    case Completed(l, _) => ValidLineage(l)
  }

  predicate ShapeOk(parents: map<nat, seq<nat>>, status: map<nat, Status>) {
    && parents.Keys == status.Keys
    && forall c, k | c in parents && 0 <= k < |parents[c]| :: parents[c][k] in status
  }

  predicate WellFormed(w: World) {
    ShapeOk(w.parents, w.status) && forall c | c in w.status :: StatusOk(w.status[c])
  }

  function Observe(s: Status): Observation {
    match s
    case Pending(l) => Observation(l, Other, None)
    case SampledAs(l) => Observation(Sampled, l.0, l.1)
    case Completed(l, _) => Observation(Done, l.0, l.1)
  }

  ghost function ParentsOf(w: World, c: nat): set<Observation>
    requires WellFormed(w) && c in w.parents
  {
    set k | 0 <= k < |w.parents[c]| :: Observe(w.status[w.parents[c][k]])
  }

  // ---- steps ---------------------------------------------------------------------------------

  datatype Step =
    | Move(c: nat, lifecycle: Lifecycle)
    | Complete(c: nat, override: Option<string>, verdict: Verdict)
    | Sample(c: nat, override: Option<string>, verdict: Verdict)
    | Resume(c: nat, verdict: Verdict)
    | ResumeInterrupted(c: nat, override: Option<string>, verdict: Verdict)

  /** A component completes once, with what its calculation returned at that moment. */
  ghost predicate Enabled(w: World, s: Step)
    requires WellFormed(w)
  {
    && s.c in w.status
    && match s
       case Move(c, l) => w.status[c].Pending? && l in {Queued, Running, Failed}
       case Complete(c, override, v) => w.status[c].Pending? && v.Ready? && IsVerdict(ParentsOf(w, c), override, v)
       case Sample(c, override, v) => w.status[c].Pending? && v.Ready? && IsVerdict(ParentsOf(w, c), override, v)
       case Resume(c, v) =>
         && w.status[c].SampledAs? && v.Ready? && IsVerdict(ParentsOf(w, c), None, v)
         && ResumeLineage(w.status[c].lineage, (v.stability, v.origin)).Kept?
       case ResumeInterrupted(c, override, v) =>
         w.status[c].SampledAs? && v.Ready? && IsInterruptResume(w.status[c].lineage, ParentsOf(w, c), override, v)
  }

  ghost function Apply(w: World, s: Step): World
    requires WellFormed(w) && Enabled(w, s)
  {
    match s
    case Move(c, l) => w.(status := w.status[c := Pending(l)])
    case Complete(c, override, v) =>
      Introduce(w, c, override, v).(status := w.status[c := Completed((v.stability, v.origin), v.overridden)])
    case Sample(c, override, v) =>
      Introduce(w, c, override, v).(status := w.status[c := SampledAs((v.stability, v.origin))])
    case Resume(c, v) =>
      w.(status := w.status[c := Completed(ResumeLineage(w.status[c].lineage, (v.stability, v.origin)).lineage, false)])
    case ResumeInterrupted(c, override, v) =>
      w.(status := w.status[c := Completed((v.stability, v.origin), v.overridden)])
  }

  function Introduce(w: World, c: nat, override: Option<string>, v: Verdict): World
    requires v.Ready?
  {
    if v.overridden && override.Some? then w.(introduced := w.introduced + {(c, override.value)}) else w
  }

  // ---- ancestry ------------------------------------------------------------------------------

  /** Each entry is a parent of the next. */
  predicate IsDescent(parents: map<nat, seq<nat>>, p: seq<nat>) {
    && p != []
    && (forall k | 0 <= k < |p| :: p[k] in parents)
    && forall k | 0 <= k < |p| - 1 :: p[k] in parents[p[k + 1]]
  }

  /** An override with this origin was used at the component or at an ancestor. */
  ghost predicate Introduced(w: World, origin: string, c: nat) {
    exists p :: IsDescent(w.parents, p) && p[|p| - 1] == c && (p[0], origin) in w.introduced
  }

  lemma IntroducedBelow(w: World, origin: string, parent: nat, c: nat)
    requires Introduced(w, origin, parent) && c in w.parents && parent in w.parents[c]
    ensures Introduced(w, origin, c)
  {
    var p :| IsDescent(w.parents, p) && p[|p| - 1] == parent && (p[0], origin) in w.introduced;
    var q := p + [c];
    assert forall k | 0 <= k < |q| - 1 :: q[k] == p[k];
    assert IsDescent(w.parents, q);
  }

  lemma IntroducedKept(w: World, x: World, origin: string, c: nat)
    requires Introduced(w, origin, c) && x.parents == w.parents && w.introduced <= x.introduced
    ensures Introduced(x, origin, c)
  {
  }

  // ---- the invariant -------------------------------------------------------------------------

  ghost predicate OriginOk(w: World, c: nat)
    requires c in w.status
  {
    !w.status[c].Pending? && w.status[c].lineage.0.Unstable? && w.status[c].lineage.1.Some? ==>
      Introduced(w, w.status[c].lineage.1.value, c)
  }

  predicate DoneStable(s: Status) { s.Completed? && s.lineage == STABLE }

  /** A stable result, sampled or done, has only done, stable parents. */
  ghost predicate StableOk(w: World, c: nat)
    requires WellFormed(w) && c in w.status
  {
    !w.status[c].Pending? && w.status[c].lineage == STABLE ==>
      forall k | 0 <= k < |w.parents[c]| :: DoneStable(w.status[w.parents[c][k]])
  }

  ghost predicate Inv(w: World) {
    WellFormed(w) && forall c | c in w.status :: OriginOk(w, c) && StableOk(w, c)
  }

  lemma ObservedParent(w: World, c: nat, k: nat)
    requires WellFormed(w) && c in w.parents && k < |w.parents[c]|
    ensures Observe(w.status[w.parents[c][k]]) in ParentsOf(w, c)
  {
  }

  /** No observation of a well-formed world makes the calculation raise. */
  lemma ObservedGood(w: World, c: nat)
    requires WellFormed(w) && c in w.parents
    ensures forall o | o in ParentsOf(w, c) :: !Bad(o)
  {
  }

  /** A ready verdict: what it says of the origin, and of the parents when it is stable. */
  lemma VerdictMeans(w: World, c: nat, override: Option<string>, v: Verdict)
    requires Inv(w) && c in w.status && v.Ready? && IsVerdict(ParentsOf(w, c), override, v)
    ensures ValidLineage((v.stability, v.origin))
    ensures v.overridden ==> override.Some? && v.stability.Unstable? && v.origin == override
    ensures !v.overridden && v.stability.Unstable? ==> Introduced(w, v.origin.value, c)
    ensures v.stability.Stable? ==>
      && !v.overridden
      && forall k | 0 <= k < |w.parents[c]| :: DoneStable(w.status[w.parents[c][k]])
  {
    ObservedGood(w, c);
    var parents := ParentsOf(w, c);
    forall k | 0 <= k < |w.parents[c]| ensures Observe(w.status[w.parents[c][k]]) in parents {
      ObservedParent(w, c, k);
    }
    if !v.overridden && parents != {} {
      var o :| o in parents;
      var k :| 0 <= k < |w.parents[c]| && Observe(w.status[w.parents[c][k]]) == o;
      var parent := w.parents[c][k];
      if v.stability.Unstable? {
        assert OriginOk(w, parent);
        IntroducedBelow(w, v.origin.value, parent, c);
      }
    }
  }

  /** One component moves, which was not done; the rest of the world is as it was. */
  ghost predicate Moved(w: World, x: World, c: nat) {
    && c in w.status && c in x.status && !w.status[c].Completed?
    && x.parents == w.parents && x.status == w.status[c := x.status[c]] && w.introduced <= x.introduced
  }

  lemma StepOk(w: World, s: Step)
    requires Inv(w) && Enabled(w, s)
    ensures Inv(Apply(w, s)) && Moved(w, Apply(w, s), s.c)
  {
    var x := Apply(w, s);
    StepMoves(w, s);
    SteppedOk(w, s);
    hide Apply, Enabled;
    OthersKept(w, x, s.c);
  }

  lemma OthersKept(w: World, x: World, m: nat)
    requires Inv(w) && Moved(w, x, m) && WellFormed(x) && OriginOk(x, m) && StableOk(x, m)
    ensures Inv(x)
  {
    forall c | c in x.status ensures OriginOk(x, c) && StableOk(x, c) {
      if c != m {
        assert OriginOk(w, c) && StableOk(w, c);
        if !w.status[c].Pending? && w.status[c].lineage.0.Unstable? && w.status[c].lineage.1.Some? {
          IntroducedKept(w, x, w.status[c].lineage.1.value, c);
        }
      }
    }
  }

  lemma StepMoves(w: World, s: Step)
    requires Inv(w) && Enabled(w, s)
    ensures Moved(w, Apply(w, s), s.c) && WellFormed(Apply(w, s))
  {
    var x := Apply(w, s);
    assert StatusOk(w.status[s.c]);
    match s
    case Complete(c, override, v) => VerdictMeans(w, c, override, v);
    case Sample(c, override, v) => VerdictMeans(w, c, override, v);
    case ResumeInterrupted(c, override, v) => OverriddenExactly(w.status[c].lineage, ParentsOf(w, c), override, v);
    case _ =>
    MovedFormed(w, x, s.c);
  }

  lemma MovedFormed(w: World, x: World, c: nat)
    requires WellFormed(w) && Moved(w, x, c) && StatusOk(x.status[c])
    ensures WellFormed(x)
  {
  }

  /** The component that moved. */
  lemma SteppedOk(w: World, s: Step)
    requires Inv(w) && Enabled(w, s) && WellFormed(Apply(w, s))
    ensures OriginOk(Apply(w, s), s.c) && StableOk(Apply(w, s), s.c)
  {
    var x, c := Apply(w, s), s.c;
    assert OriginOk(w, c) && StableOk(w, c);
    match s
    case Move(_, _) =>
    case Complete(_, override, v) => VerdictMeans(w, c, override, v); FreshOrigin(w, x, c, override, v);
    case Sample(_, override, v) => VerdictMeans(w, c, override, v); FreshOrigin(w, x, c, override, v);
    case Resume(_, v) => KeptOrigin(w, x, c);
    case ResumeInterrupted(_, override, v) =>
      OverriddenExactly(w.status[c].lineage, ParentsOf(w, c), override, v);
      KeptOrigin(w, x, c);
  }

  lemma FreshOrigin(w: World, x: World, c: nat, override: Option<string>, v: Verdict)
    requires c in w.status && c in x.status && c in w.parents && x.parents == w.parents && v.Ready?
    requires x.introduced == Introduce(w, c, override, v).introduced
    requires !x.status[c].Pending? && x.status[c].lineage == (v.stability, v.origin)
    requires v.overridden ==> override.Some? && v.origin == override
    requires !v.overridden && v.stability.Unstable? && v.origin.Some? ==> Introduced(w, v.origin.value, c)
    ensures OriginOk(x, c)
  {
    if v.stability.Unstable? && v.origin.Some? {
      if v.overridden {
        assert IsDescent(x.parents, [c]) && ([c][0], v.origin.value) in x.introduced;
      } else {
        IntroducedKept(w, x, v.origin.value, c);
      }
    }
  }

  lemma KeptOrigin(w: World, x: World, c: nat)
    requires c in w.status && c in x.status && x.parents == w.parents && x.introduced == w.introduced && OriginOk(w, c)
    requires !w.status[c].Pending? && !x.status[c].Pending? && x.status[c].lineage == w.status[c].lineage
    ensures OriginOk(x, c)
  {
    if w.status[c].lineage.0.Unstable? && w.status[c].lineage.1.Some? {
      IntroducedKept(w, x, w.status[c].lineage.1.value, c);
    }
  }

  // ---- whole runs ----------------------------------------------------------------------------

  ghost predicate Possible(w: World, run: seq<Step>)
    requires Inv(w)
    decreases |run|
  {
    run == [] ||
    (Enabled(w, run[0]) && (StepOk(w, run[0]); Possible(Apply(w, run[0]), run[1..])))
  }

  ghost function After(w: World, run: seq<Step>): World
    requires Inv(w) && Possible(w, run)
    decreases |run|
  {
    if run == [] then w else StepOk(w, run[0]); After(Apply(w, run[0]), run[1..])
  }

  lemma {:induction false} RunOk(w: World, run: seq<Step>)
    requires Inv(w) && Possible(w, run)
    ensures Inv(After(w, run)) && After(w, run).parents == w.parents && w.introduced <= After(w, run).introduced
    decreases |run|
  {
    if run != [] {
      StepOk(w, run[0]);
      RunOk(Apply(w, run[0]), run[1..]);
    }
  }

  /** Nothing has run yet. */
  predicate Fresh(w: World) {
    WellFormed(w) && (forall c | c in w.status :: w.status[c].Pending?) && w.introduced == {}
  }

  lemma FreshOk(w: World)
    requires Fresh(w)
    ensures Inv(w)
  {
  }

  /** In every run, each ancestor of a component with a stable result is done and stable. */
  lemma StableAncestors(start: World, run: seq<Step>, p: seq<nat>)
    requires Fresh(start) && (FreshOk(start); Possible(start, run))
    requires IsDescent(start.parents, p)
    requires var w := After(start, run);
      p[|p| - 1] in w.status && !w.status[p[|p| - 1]].Pending? && w.status[p[|p| - 1]].lineage == STABLE
    ensures forall k | 0 <= k < |p| - 1 ::
      p[k] in After(start, run).status && DoneStable(After(start, run).status[p[k]])
  {
    RunOk(start, run);
    Ascend(After(start, run), p, |p| - 1);
  }

  lemma {:induction false} Ascend(w: World, p: seq<nat>, n: nat)
    requires Inv(w) && IsDescent(w.parents, p) && n < |p| && !w.status[p[n]].Pending?
      && w.status[p[n]].lineage == STABLE
    ensures forall k | 0 <= k < n :: DoneStable(w.status[p[k]])
  {
    if n > 0 {
      assert StableOk(w, p[n]);
      assert p[n - 1] in w.parents[p[n - 1 + 1]];
      Ascend(w, p, n - 1);
    }
  }

  /** In every run, the origin an unstable result carries was introduced by an override used at that
      component or at an ancestor. */
  lemma OriginTraced(start: World, run: seq<Step>, c: nat)
    requires Fresh(start) && (FreshOk(start); Possible(start, run))
    requires var w := After(start, run); c in w.status && !w.status[c].Pending? && w.status[c].lineage.0.Unstable?
    ensures var w := After(start, run); w.status[c].lineage.1.Some? && Introduced(w, w.status[c].lineage.1.value, c)
  {
    RunOk(start, run);
    assert OriginOk(After(start, run), c);
  }

  /** Without overrides every result is stable. */
  lemma NoOverridesAllStable(start: World, run: seq<Step>, c: nat)
    requires Fresh(start) && (FreshOk(start); Possible(start, run))
    requires After(start, run).introduced == {}
    ensures var w := After(start, run); c in w.status && !w.status[c].Pending? ==> w.status[c].lineage == STABLE
  {
    RunOk(start, run);
    var w := After(start, run);
    if c in w.status && !w.status[c].Pending? {
      assert OriginOk(w, c);
    }
  }
}
