/**
 Whether a component may run, and the lineage its result gets, from what its direct parents show.  The loop
 compares only neighbouring results, yet the verdict depends on the set of observations alone.
 */
module Readiness {
  import opened Prelude

  datatype Lifecycle = Queued | Running | Sampled | Done | Failed | Unknown

  datatype Stability = Stable | Unstable | Other

  /** A parent's lifecycle, stability and origin of instability. */
  datatype Observation = Observation(lifecycle: Lifecycle, stability: Stability, origin: Option<string>)

  type Lineage = (Stability, Option<string>)

  datatype Error = InvalidOrigin | UnknownLifecycle | InvalidResult | NoReadiness

  datatype Verdict =
    | Ready(stability: Stability, origin: Option<string>, overridden: bool)
    | Blocked
    | Raised(error: Error)

  const STABLE: Lineage := (Stable, None)

  predicate ValidLineage(l: Lineage) {
    l == STABLE || (l.0.Unstable? && l.1.Some? && l.1.value != "")
  }

  // ---- the verdict as a matter of sets -------------------------------------------------------

  ghost function Shown(observations: seq<Observation>): set<Observation> {
    set o | o in observations
  }

  /** The observation makes the calculation raise. */
  predicate Bad(o: Observation) {
    o.lifecycle.Unknown? || (o.lifecycle.Done? && !ValidLineage((o.stability, o.origin)))
  }

  /** Some parent is not done, or two done parents differ. */
  ghost predicate Obstructed(parents: set<Observation>) {
    (exists o :: o in parents && !o.lifecycle.Done?)
    || (exists a, b :: a in parents && b in parents && a.lifecycle.Done? && b.lifecycle.Done?
                       && (a.stability, a.origin) != (b.stability, b.origin))
  }

  /** The verdict is this one, up to which of several errors is met first. */
  ghost predicate IsVerdict(parents: set<Observation>, override: Option<string>, v: Verdict) {
    if override == Some("") || exists o :: o in parents && Bad(o) then v.Raised?
    else if Obstructed(parents) then
      v == if override.Some? then Ready(Unstable, override, true) else Blocked
    else if parents == {} then v == Ready(Stable, None, false)
    else
      && v.Ready? && !v.overridden
      && forall o | o in parents :: o.lifecycle.Done? && (o.stability, o.origin) == (v.stability, v.origin)
  }

  lemma VerdictUnique(parents: set<Observation>, override: Option<string>, v: Verdict, w: Verdict)
    requires IsVerdict(parents, override, v) && IsVerdict(parents, override, w)
    ensures v == w || (v.Raised? && w.Raised?)
  {
    if parents != {} { var o :| o in parents; }
  }

  /** A verdict is an error exactly for an empty override origin, a parent in no known state, or a done parent whose
      result is neither stable without an origin nor unstable with one that is not empty. */
  lemma RaisedExactly(parents: set<Observation>, override: Option<string>, v: Verdict)
    requires IsVerdict(parents, override, v)
    ensures v.Raised? <==>
      || override == Some("")
      || (exists o :: o in parents && o.lifecycle.Unknown?)
      || exists o :: o in parents && o.lifecycle.Done? && match o.stability
         case Stable => o.origin.Some?
         case Unstable => o.origin.None? || o.origin.value == ""
         case Other => true
  {
    forall o | o in parents && Bad(o) ensures o.lifecycle.Unknown? || o.lifecycle.Done? { }
    forall o | o in parents && o.lifecycle.Done? ensures Bad(o) <==> match o.stability
      case Stable => o.origin.Some?
      case Unstable => o.origin.None? || o.origin.value == ""
      case Other => true
    {
    }
  }

  /** What is raised: an invalid origin before anything else, then the fault of the first bad observation. */
  ghost predicate FirstFault(observations: seq<Observation>, override: Option<string>, error: Error) {
    if override == Some("") then error == InvalidOrigin
    else exists k :: 0 <= k < |observations| && Bad(observations[k])
                     && error == (if observations[k].lifecycle.Unknown? then UnknownLifecycle else InvalidResult)
                     && forall j | 0 <= j < k :: !Bad(observations[j])
  }

  /** `calculate_component_readiness`. */
  method ComponentReadiness(observations: seq<Observation>, override: Option<string>) returns (v: Verdict)
    ensures IsVerdict(Shown(observations), override, v)
    ensures v.Raised? ==> FirstFault(observations, override, v.error)
  {
    ghost var parents := Shown(observations);
    if override == Some("") { return Raised(InvalidOrigin); }
    var result: Option<Lineage> := None;
    var blocked := false;
    for i := 0 to |observations|
      invariant forall k | 0 <= k < i :: !Bad(observations[k])
      invariant result.None? <==> forall k | 0 <= k < i :: !observations[k].lifecycle.Done?
      invariant result.Some? ==>
        exists k :: 0 <= k < i && observations[k].lifecycle.Done? && Shows(observations[k]) == result.value
      invariant !blocked ==>
        forall k | 0 <= k < i :: observations[k].lifecycle.Done? && Some(Shows(observations[k])) == result
      invariant blocked ==> exists j, k :: 0 <= j < i && 0 <= k < i && Obstructs(observations[j], observations[k])
    {
      var o := observations[i];
      assert o in parents;
      if o.lifecycle.Unknown? { return Raised(UnknownLifecycle); }
      if !o.lifecycle.Done? {
        assert Obstructs(o, o);
        blocked := true;
      } else {
        if !ValidLineage(Shows(o)) { return Raised(InvalidResult); }
        if result.Some? && result.value != Shows(o) {
          ghost var k :| 0 <= k < i && observations[k].lifecycle.Done? && Shows(observations[k]) == result.value;
          assert Obstructs(observations[k], o);
          blocked := true;
        }
        result := Some(Shows(o));
      }
    }
    assert forall o | o in parents :: !Bad(o);
    assert result.None? && |observations| > 0 ==> !observations[0].lifecycle.Done?;
    if blocked {
      assert Obstructed(parents) by { BlockedObstructs(observations); }
      return if override.Some? then Ready(Unstable, override, true) else Blocked;
    }
    if result.None? {
      return Ready(Stable, None, false);
    }
    ghost var k :| 0 <= k < |observations| && observations[k].lifecycle.Done? && Shows(observations[k]) == result.value;
    assert observations[k] in parents;
    return Ready(result.value.0, result.value.1, false);
  }

  function Shows(o: Observation): Lineage { (o.stability, o.origin) }

  predicate Obstructs(a: Observation, b: Observation) {
    !a.lifecycle.Done? || (b.lifecycle.Done? && Shows(a) != Shows(b))
  }

  lemma BlockedObstructs(observations: seq<Observation>)
    requires exists j, k ::
      0 <= j < |observations| && 0 <= k < |observations| && Obstructs(observations[j], observations[k])
    ensures Obstructed(Shown(observations))
  {
    var j, k :| 0 <= j < |observations| && 0 <= k < |observations| && Obstructs(observations[j], observations[k]);
    assert observations[j] in Shown(observations) && observations[k] in Shown(observations);
  }

  /** Parents shown twice, or in another order, make no difference. */
  lemma OrderAndDuplicatesIrrelevant(a: seq<Observation>, b: seq<Observation>, override: Option<string>, v: Verdict,
      w: Verdict)
    requires forall o :: o in a <==> o in b
    requires IsVerdict(Shown(a), override, v) && IsVerdict(Shown(b), override, w)
    ensures v == w || (v.Raised? && w.Raised?)
  {
    assert Shown(a) == Shown(b);
    VerdictUnique(Shown(a), override, v, w);
  }

  // ---- sampled results resumed ---------------------------------------------------------------

  datatype Resumed = Kept(lineage: Lineage) | Incompatible | BadResult

  /** `calculate_sampled_resume_lineage`. */
  function ResumeLineage(retained: Lineage, parents: Lineage): (r: Resumed)
    ensures r.BadResult? <==> !ValidLineage(retained)
    ensures r.Kept? ==> r.lineage == retained
    ensures r.Kept? && retained == STABLE ==> !parents.0.Unstable?
    ensures r.Incompatible? <==> ValidLineage(retained) && parents.0.Unstable? && parents != retained
  {
    if !ValidLineage(retained) then BadResult
    else if parents.0.Unstable? && retained != parents then Incompatible
    else Kept(retained)
  }

  /** `calculate_interrupt_sampled_resume_readiness`: the retained lineage, checked against the done parents
      only, with the override flag of all of them. */
  method InterruptResume(retained: Lineage, observations: seq<Observation>, override: Option<string>)
      returns (v: Verdict)
    ensures IsInterruptResume(retained, Shown(observations), override, v)
    ensures override == Some("") || (exists o :: o in observations && Bad(o)) ==>
      v.Raised? && FirstFault(observations, override, v.error)
  {
    var readiness := ComponentReadiness(observations, override);
    if readiness.Raised? {
      var e := readiness.error;
      return Raised(e);
    }
    var done: seq<Observation> := [];
    for i := 0 to |observations|
      invariant forall o :: o in done <==> o in observations[..i] && o.lifecycle.Done?
    {
      if observations[i].lifecycle.Done? { done := done + [observations[i]]; }
    }
    assert observations[..|observations|] == observations;
    var completed := ComponentReadiness(done, None);
    ghost var parents := Shown(observations);
    assert Shown(done) == Finished(parents);
    assert forall o | o in Finished(parents) :: !Bad(o);
    if completed.Blocked? { return Blocked; }
    var lineage := ResumeLineage(retained, (completed.stability, completed.origin));
    match lineage
    case BadResult => return Raised(InvalidResult);
    case Incompatible => return Blocked;
    case Kept(l) =>
      if readiness.Blocked? { return Raised(NoReadiness); }
      return Ready(l.0, l.1, readiness.overridden);
  }

  ghost function Finished(parents: set<Observation>): set<Observation> {
    set o | o in parents && o.lifecycle.Done?
  }

  /** What an interrupted resume comes to. */
  ghost predicate IsInterruptResume(retained: Lineage, parents: set<Observation>, override: Option<string>,
      v: Verdict)
  {
    if override == Some("") || exists o :: o in parents && Bad(o) then v.Raised?
    else if Obstructed(Finished(parents)) then v == Blocked
    else if !ValidLineage(retained) then v == Raised(InvalidResult)
    else if exists o :: o in Finished(parents) && o.stability.Unstable? && Shows(o) != retained then v == Blocked
    else if !Obstructed(parents) then v == Ready(retained.0, retained.1, false)
    else if override.Some? then v == Ready(retained.0, retained.1, true)
    else v == Raised(NoReadiness)
  }

  /** Without an override, a parent that is not done makes the resume raise instead of refusing, exactly when
      the retained lineage agrees with the parents that are done. */
  lemma ResumeWithoutOverrideRaises(retained: Lineage, parents: set<Observation>, v: Verdict)
    requires IsInterruptResume(retained, parents, None, v) && ValidLineage(retained)
    requires (forall o | o in parents :: !Bad(o)) && exists o :: o in parents && !o.lifecycle.Done?
    ensures v == (if Obstructed(Finished(parents))
                     || exists o :: o in Finished(parents) && o.stability.Unstable? && Shows(o) != retained
                  then Blocked else Raised(NoReadiness))
  {
  }

  /** A resumed result is marked overridden exactly when some parent is not done. */
  lemma OverriddenExactly(retained: Lineage, parents: set<Observation>, override: Option<string>, v: Verdict)
    requires IsInterruptResume(retained, parents, override, v) && v.Ready?
    ensures v.overridden <==> exists o :: o in parents && !o.lifecycle.Done?
    ensures (v.stability, v.origin) == retained && ValidLineage(retained)
  {
    forall a, b | a in parents && b in parents && a.lifecycle.Done? && b.lifecycle.Done?
      ensures (a.stability, a.origin) == (b.stability, b.origin)
    {
      assert a in Finished(parents) && b in Finished(parents);
    }
  }

  /** One parent still running, a stable result retained, no override: the resume raises. */
  lemma RunningParentRaises()
    ensures IsInterruptResume(STABLE, {Observation(Running, Other, None)}, None, Raised(NoReadiness))
  {
    var parents := {Observation(Running, Other, None)};
    assert Finished(parents) == {};
    assert Observation(Running, Other, None) in parents;
  }
}
