/**
 The process pool's lazy run as the source writes it: an object whose operations submit, wait and collect in
 loops.  Its runs are runs of the machine in `ProcessSchedules`.
 */
module ProcessRunner {
  import opened Prelude
  import opened ProcessModel
  import opened ProcessSchedules

  class JobSourceRun {
    const source: seq<Pull>
    const outcome: nat -> Outcome
    const maxProcesses: nat
    var s: State
    /** The jobs some wait found finished. */
    var found: set<nat>
    ghost var waits: seq<Wait>
    ghost var trace: seq<Step>

    ghost predicate Valid()
      reads this
    {
      Inv(source, outcome, maxProcesses, s)
    }

    /** The object is where the machine is after the steps taken so far. */
    ghost predicate At(at: Control)
      reads this
    {
      Reaches(source, outcome, maxProcesses, trace, Run(s, at))
    }

    constructor (source: seq<Pull>, outcome: nat -> Outcome, maxProcesses: nat)
      requires maxProcesses >= 1
      ensures Valid() && s == IDLE && found == {} && waits == [] && trace == [] && At(First)
      ensures this.source == source && this.outcome == outcome && this.maxProcesses == maxProcesses
    {
      this.source, this.outcome, this.maxProcesses, s, found := source, outcome, maxProcesses, IDLE, {};
      waits, trace := [], [];
    }

    /** The source raises, or submitting its next item does. */
    ghost predicate Raises(error: int)
      reads this
    {
      |s.submitted| < |source| && !source[|s.submitted|].Submits? && source[|s.submitted|].error == error
    }

    /** The jobs found finished were submitted, and those no longer outstanding were found finished. */
    ghost predicate FoundSubmitted()
      reads this
    {
      && (forall id | id in found :: id < |s.submitted|)
      && (forall id: nat | id < |s.submitted| && id !in s.futures :: id in found)
    }

    method SubmitOne(ghost at: Control) returns (submitted: bool, error: Option<int>)
      requires Valid() && |s.futures| < maxProcesses && At(at) && FoundSubmitted()
      requires (at.First? && !s.sourceExhausted) || (at.Filling? && s.futures != {})
      modifies this`s, this`trace
      ensures Valid() && SubmissionOnly(old(s), s) && FoundSubmitted()
      ensures submitted ==>
        error.None? && |s.submitted| == |old(s).submitted| + 1 && |s.futures| == |old(s).futures| + 1
      ensures !submitted ==> s.submitted == old(s).submitted && s.futures == old(s).futures
      ensures !submitted && error.None? ==> |s.submitted| == |source| && s.sourceExhausted
      ensures error.None? ==> At(if submitted || at.Filling? then Filling else Stopped)
      ensures error.Some? ==> !submitted && Raises(error.value)
    {
      hide Reaches, Accounted;
      if s.sourceExhausted { return false, None; }
      var id := |s.submitted|;
      if id == |source| {
        Follow(source, outcome, maxProcesses, trace, Run(s, at), SeeEnd);
        EndSeenOk(source, outcome, maxProcesses, s);
        s := s.(sourceExhausted := true);
        trace := trace + [SeeEnd];
        return false, None;
      }
      match source[id]
      case SourceRaises(e) => return false, Some(e);
      case SubmitRaises(_, e) => return false, Some(e);
      case Submits(item) =>
        SubmitOk(source, outcome, maxProcesses, s);
        Follow(source, outcome, maxProcesses, trace, Run(s, at), Step.SubmitOne);
        FreshId(source, outcome, maxProcesses, s);
        s := s.(submitted := s.submitted + [item], futures := s.futures + {id});
        if |s.futures| > s.most { s := s.(most := |s.futures|); }
        trace := trace + [Step.SubmitOne];
        return true, None;
    }

    /** Reports one finished job; the error it failed with. */
    method Collect(id: nat) returns (error: Option<int>)
      requires Valid() && id in s.futures
      modifies this`s
      ensures id < |old(s).submitted|
      ensures Valid() && s == Reported(outcome, old(s), id) && |s.futures| == |old(s).futures| - 1
      ensures error == if outcome(id).Error? then Some(outcome(id).error) else None
    {
      ReportOk(source, outcome, maxProcesses, s, id);
      var item := s.submitted[id];
      s := s.(futures := s.futures - {id});
      match outcome(id) {
        case Error(e) =>
          s := s.(reports := s.reports + [Report(id, item, Error(e))]);
          error := Some(e);
        case Value(value) =>
          s := s.(reports := s.reports + [Report(id, item, Value(value))]);
          s := s.(results := s.results + [value]);
          error := None;
      }
    }

    /** Submits until the pool is full or the source has no more. */
    method Fill() returns (error: Option<int>)
      requires Valid() && s.futures != {} && At(Filling) && FoundSubmitted()
      modifies this`s, this`trace
      ensures Valid() && SubmissionOnly(old(s), s) && FoundSubmitted()
      ensures s.futures != {} && |s.futures| <= maxProcesses && |s.futures| <= |s.submitted| <= |source|
      ensures 2 * (|source| - |s.submitted|) + |s.futures| <= 2 * (|source| - |old(s).submitted|) + |old(s).futures|
      ensures |old(s).submitted| <= |s.submitted| && (|old(s).futures| >= maxProcesses ==> s == old(s))
      ensures error.None? ==> At(Filling) && (|s.futures| >= maxProcesses || s.sourceExhausted)
      ensures error.None? ==> |s.futures| == maxProcesses || |s.submitted| == |source|
      ensures error.Some? ==> Raises(error.value)
    {
      hide Accounted, Reaches;
      FuturesFew(source, outcome, maxProcesses, s);
      while |s.futures| < maxProcesses
        invariant Valid() && At(Filling) && s.futures != {} && |s.futures| <= maxProcesses && SubmissionOnly(old(s), s)
        invariant FoundSubmitted()
        invariant |s.submitted| >= |old(s).submitted| && |s.futures| >= |old(s).futures|
        invariant |old(s).futures| >= maxProcesses ==> s == old(s)
        invariant 2 * (|source| - |s.submitted|) + |s.futures| <= 2 * (|source| - |old(s).submitted|) + |old(s).futures|
        decreases |source| - |s.submitted|
      {
        var submitted, failed := SubmitOne(Filling);
        FuturesFew(source, outcome, maxProcesses, s);
        if failed.Some? { return failed; }
        if !submitted { break; }
      }
      FuturesFew(source, outcome, maxProcesses, s);
      error := None;
    }

    /** Collects one of the jobs a wait found finished. */
    method CollectFinished(done: set<nat>, id: nat) returns (error: Option<int>)
      requires Valid() && id in done && id in s.futures && AllValues(s.reports) && At(Collecting(done))
      requires FoundSubmitted() && id in found
      modifies this`s, this`trace
      ensures FoundSubmitted() && Valid() && s.cancelled == old(s).cancelled && s.submitted == old(s).submitted
      ensures s.futures == old(s).futures - {id}
      ensures error.None? ==> AllValues(s.reports)
      ensures error.None? ==>
        At(if done - {id} != {} then Collecting(done - {id}) else if s.futures != {} then Filling else Stopped)
      ensures error.Some? ==> FirstError(source, s, |s.reports|, error.value)
    {
      hide Inv, FirstError, AllValues, Reaches;
      ghost var before := s;
      error := Collect(id);
      ReportedLast(source, before.reports, s, error);
      if error.Some? { return; }
      Follow(source, outcome, maxProcesses, trace, Run(before, Collecting(done)), CollectOne(id));
      trace := trace + [CollectOne(id)];
    }

    /** The jobs a wait found finished, in whatever order, up to the first that failed. */
    method CollectDone(finished: set<nat>) returns (error: Option<int>)
      requires Valid() && finished <= s.futures && finished != {} && AllValues(s.reports) && At(Collecting(finished))
      requires FoundSubmitted() && finished <= found
      modifies this`s, this`trace
      ensures FoundSubmitted() && Valid() && s.cancelled == old(s).cancelled && s.submitted == old(s).submitted
      ensures |s.futures| < |old(s).futures|
      ensures error.None? ==> AllValues(s.reports) && s.futures == old(s).futures - finished
      ensures error.None? ==> At(if s.futures != {} then Filling else Stopped)
      ensures error.Some? ==> FirstError(source, s, |s.reports|, error.value)
    {
      hide Inv, FirstError, AllValues, BeingCollected, Reaches;
      var done := finished;
      ghost var collected: set<nat> := {};
      assert BeingCollected(s.futures, finished, done, collected, s.futures) by { CollectingNone(s.futures, finished); }
      while done != {}
        invariant Valid() && AllValues(s.reports) && FoundSubmitted() && done <= found
        invariant s.cancelled == old(s).cancelled && s.submitted == old(s).submitted
        invariant BeingCollected(old(s).futures, finished, done, collected, s.futures)
        invariant At(if done != {} then Collecting(done) else if s.futures != {} then Filling else Stopped)
        decreases |done|
      {
        var id :| id in done;
        CollectingOne(old(s).futures, finished, done, collected, s.futures, id);
        collected := collected + {id};
        error := CollectFinished(done, id);
        if error.Some? { return; }
        done := done - {id};
      }
      CollectingAll(old(s).futures, finished, collected, s.futures);
      error := None;
    }

    /** The body of the `try`: the error it raises, if any. */
    method Pump() returns (error: Option<int>)
      requires Valid() && s == IDLE && found == {} && waits == [] && maxProcesses >= 1 && At(First)
      modifies this
      ensures Valid() && s.cancelled == {} && FoundSubmitted() && (error.None? ==> At(Stopped))
      ensures error.None? ==> s.futures == {} && AllValues(s.reports) && WaitsOk(source, maxProcesses, waits, s)
      ensures error.Some? ==> FirstError(source, s, |s.reports|, error.value)
      ensures maxProcesses == 1 ==> |s.submitted| <= 1
    {
      var first;
      first, error := SubmitOne(First);
      if error.Some? { return; }
      hide Inv, WaitsOk, Reaches, FirstError, AllValues;
      NoWaits(source, maxProcesses, s);
      while s.futures != {}
        invariant Valid() && s.cancelled == {} && AllValues(s.reports) && WaitsOk(source, maxProcesses, waits, s)
        invariant FoundSubmitted()
        invariant maxProcesses == 1 ==> |s.submitted| <= 1
        invariant At(if s.futures != {} then Filling else Stopped)
        decreases 2 * (|source| - |s.submitted|) + |s.futures|
      {
        error := PumpTurn();
        if error.Some? { return; }
      }
      error := None;
    }

    /** One turn of the loop: fill the pool, wait, collect what the wait found. */
    method PumpTurn() returns (error: Option<int>)
      requires Valid() && s.futures != {} && At(Filling) && s.cancelled == {} && AllValues(s.reports)
      requires WaitsOk(source, maxProcesses, waits, s) && FoundSubmitted()
      modifies this
      ensures Valid() && s.cancelled == {} && FoundSubmitted()
      ensures |old(s).futures| >= maxProcesses ==> s.submitted == old(s).submitted
      ensures error.None? ==>
        && AllValues(s.reports) && WaitsOk(source, maxProcesses, waits, s)
        && At(if s.futures != {} then Filling else Stopped)
        && |s.submitted| <= |source|
        && 2 * (|source| - |s.submitted|) + |s.futures| < 2 * (|source| - |old(s).submitted|) + |old(s).futures|
      ensures error.Some? ==> FirstError(source, s, |s.reports|, error.value)
    {
      hide Inv, WaitsOk, Reaches, FirstError, AllValues;
      error := Fill();
      if error.Some? {
        RaisedFirst(source, s, error.value);
        return;
      }
      ghost var filled := s;
      var done: set<nat> :| done <= s.futures && done != {};
      OutstandingSubmitted(source, outcome, maxProcesses, s);
      found := found + done;
      Follow(source, outcome, maxProcesses, trace, Run(s, Filling), WaitFor(done));
      trace := trace + [WaitFor(done)];
      error := CollectDone(done);
      if error.Some? { return; }
      DoneCount(filled.futures, done);
      WaitAdded(source, maxProcesses, waits, old(s), filled, s, |done|);
      waits := waits + [Wait(|filled.futures|, |done|, |filled.submitted|)];
    }

    /** The exception handler: every outstanding job is asked to be cancelled, which it is unless it has `begun` or
        was found finished; the others are waited for and reported. */
    method Drain(begun: set<nat>)
      requires Valid()
      modifies this`s
      ensures Valid() && s.futures == {} && s.submitted == old(s).submitted && old(s).reports <= s.reports
      ensures s.cancelled == old(s).cancelled + (old(s).futures - begun - found)
    {
      var cancelled := CancelPending(begun);
      hide Inv;
      while s.futures != {}
        invariant Valid() && s.submitted == old(s).submitted && old(s).reports <= s.reports
        invariant s.futures <= old(s).futures && cancelled == old(s).futures - begun - found
        invariant s.cancelled == old(s).cancelled + (cancelled - s.futures)
        decreases |s.futures|
      {
        var id :| id in s.futures;
        if id in cancelled {
          CancelOk(source, outcome, maxProcesses, s, id);
          s := s.(futures := s.futures - {id}, cancelled := s.cancelled + {id});
        } else {
          var error := Collect(id);
        }
      }
    }

    /** `cancel` on each outstanding job: it fails on those that have begun or finished. */
    method CancelPending(begun: set<nat>) returns (cancelled: set<nat>)
      ensures cancelled == s.futures - begun - found
    {
      cancelled := {};
      var asked: set<nat> := {};
      while asked != s.futures
        invariant asked <= s.futures && cancelled == asked - begun - found
        decreases s.futures - asked
      {
        var id :| id in s.futures && id !in asked;
        if id !in begun && id !in found { cancelled := cancelled + {id}; }
        asked := asked + {id};
      }
    }

    /** On every path nothing is left outstanding, never more than the maximum was, and every job is accounted
        for: on an error exactly those are cancelled that no wait had found finished and that have not `begun` when
        it is handled.  A return means that all submitted jobs gave values; it leaves part of the source unread
        exactly when some wait found every outstanding job finished while the source had more, which with one
        process is always. */
    method RunJobSource(begun: set<nat>) returns (result: Result)
      requires Valid() && s == IDLE && found == {} && waits == [] && maxProcesses >= 1 && At(First)
      modifies this
      ensures Valid() && s.futures == {} && s.most <= maxProcesses
      ensures forall id | id in found :: id !in s.cancelled && Tally(s.reports, ReportKey, id) == 1
      ensures result.Returned? ==>
        && s.cancelled == {} && |result.values| == |s.reports| == |s.submitted|
        && (forall k | 0 <= k < |s.reports| :: s.reports[k].outcome == Value(result.values[k]))
        && (|s.submitted| < |source| <==> CutShort(source, waits))
        && (|source| <= maxProcesses ==> |s.submitted| == |source|)
        && At(Stopped)
      ensures result.Raised? ==>
        forall id: nat | id < |s.submitted| :: id in s.cancelled <==> id !in begun && id !in found
      ensures result.Raised? ==> exists reported :: FirstError(source, s, reported, result.error)
      ensures maxProcesses == 1 ==> |s.submitted| <= 1
    {
      hide Inv, WaitsOk, Reaches, FirstError, AllValues;
      var error := Pump();
      ghost var raised := s;
      if error.Some? {
        Drain(begun);
        assert s.reports[..|raised.reports|] == raised.reports == raised.reports[..|raised.reports|];
        assert FirstError(source, s, |raised.reports|, error.value) by {
          FirstErrorKept(source, raised, s, error.value);
        }
        AllReported(source, outcome, maxProcesses, s, found);
        Sums(source, outcome, maxProcesses, s);
        return Raised(error.value);
      }
      Sums(source, outcome, maxProcesses, s);
      CutShortExactly(source, maxProcesses, waits, s);
      AllReported(source, outcome, maxProcesses, s, found);
      AllReturned(source, outcome, maxProcesses, s);
      return Returned(s.results);
    }
  }

  /** A submission touches nothing that has been reported. */
  ghost predicate SubmissionOnly(before: State, after: State) {
    after == before.(submitted := after.submitted, futures := after.futures,
                     sourceExhausted := after.sourceExhausted, most := after.most)
  }

  lemma OutstandingSubmitted(source: seq<Pull>, outcome: nat -> Outcome, max: nat, s: State)
    requires Inv(source, outcome, max, s)
    ensures forall id | id in s.futures :: id < |s.submitted|
  {
  }

  lemma Sums(source: seq<Pull>, outcome: nat -> Outcome, max: nat, s: State)
    requires Inv(source, outcome, max, s)
    ensures s.most <= max && |s.submitted| <= |source| && s.results == Values(s.reports)
  {
  }

  lemma AllReported(source: seq<Pull>, outcome: nat -> Outcome, max: nat, s: State, ids: set<nat>)
    requires Inv(source, outcome, max, s) && s.futures == {}
    requires forall id | id in ids :: id < |s.submitted| && id !in s.cancelled
    ensures forall id | id in ids :: Tally(s.reports, ReportKey, id) == 1
  {
  }

  lemma AllReturned(source: seq<Pull>, outcome: nat -> Outcome, max: nat, s: State)
    requires Inv(source, outcome, max, s) && s.futures == {} && s.cancelled == {} && AllValues(s.reports)
    ensures |s.results| == |s.reports| == |s.submitted|
    ensures forall k | 0 <= k < |s.reports| :: s.reports[k].outcome == Value(s.results[k])
  {
    ValuesInOrder(s.reports);
    ReportsCount(s.reports, |s.submitted|);
  }

  lemma EndSeenOk(source: seq<Pull>, outcome: nat -> Outcome, max: nat, s: State)
    requires Inv(source, outcome, max, s) && |s.submitted| == |source|
    ensures Inv(source, outcome, max, s.(sourceExhausted := true))
  {
  }

  lemma FreshId(source: seq<Pull>, outcome: nat -> Outcome, max: nat, s: State)
    requires Inv(source, outcome, max, s)
    ensures |s.futures + {|s.submitted|}| == |s.futures| + 1
  {
    assert |s.submitted| !in s.futures;
  }

  lemma FuturesFew(source: seq<Pull>, outcome: nat -> Outcome, max: nat, s: State)
    requires Inv(source, outcome, max, s)
    ensures |s.futures| <= |s.submitted| <= |source| && |s.futures| <= max
  {
    IdsBelow(s.futures, |s.submitted|);
  }

  /** Of the finished futures, `collected` are gone and `done` are still there. */
  ghost predicate BeingCollected(all: set<nat>, finished: set<nat>, done: set<nat>, collected: set<nat>,
      now: set<nat>)
  {
    finished <= all && done !! collected && done + collected == finished && now == all - collected
      && |now| == |all| - |collected|
  }

  lemma CollectingNone(all: set<nat>, finished: set<nat>)
    requires finished <= all
    ensures BeingCollected(all, finished, finished, {}, all)
  {
  }

  lemma CollectingOne(all: set<nat>, finished: set<nat>, done: set<nat>, collected: set<nat>, now: set<nat>, id: nat)
    requires BeingCollected(all, finished, done, collected, now) && id in done
    ensures id in now && |now - {id}| < |all|
      && BeingCollected(all, finished, done - {id}, collected + {id}, now - {id})
  {
    assert |now - {id}| == |now| - 1 && |collected + {id}| == |collected| + 1;
    assert now - {id} == all - (collected + {id});
  }

  lemma CollectingAll(all: set<nat>, finished: set<nat>, collected: set<nat>, now: set<nat>)
    requires BeingCollected(all, finished, {}, collected, now) && finished != {}
    ensures now == all - finished && |now| < |all|
  {
    assert collected == finished;
  }

  lemma RaisedFirst(source: seq<Pull>, s: State, error: int)
    requires AllValues(s.reports)
    requires |s.submitted| < |source| && !source[|s.submitted|].Submits? && source[|s.submitted|].error == error
    ensures FirstError(source, s, |s.reports|, error)
  {
    assert s.reports[..|s.reports|] == s.reports;
  }

  lemma ReportedLast(source: seq<Pull>, before: seq<Report>, s: State, error: Option<int>)
    requires |s.reports| == |before| + 1 && s.reports[..|before|] == before && AllValues(before)
    requires error.Some? <==> s.reports[|before|].outcome.Error?
    requires error.Some? ==> s.reports[|before|].outcome == Error(error.value)
    ensures error.None? ==> AllValues(s.reports)
    ensures error.Some? ==> FirstError(source, s, |s.reports|, error.value)
  {
    forall k | 0 <= k < |before| ensures s.reports[k].outcome.Value? { assert s.reports[..|before|][k] == before[k]; }
  }

  lemma FirstErrorKept(source: seq<Pull>, raised: State, s: State, error: int)
    requires FirstError(source, raised, |raised.reports|, error)
    requires raised.reports <= s.reports && s.submitted == raised.submitted
    ensures FirstError(source, s, |raised.reports|, error)
  {
    var n := |raised.reports|;
    assert s.reports[..n] == raised.reports[..n];
    if n > 0 {
      assert s.reports[..n - 1] == raised.reports[..n - 1];
      assert s.reports[n - 1] == raised.reports[n - 1];
    }
  }

  lemma NoWaits(source: seq<Pull>, max: nat, s: State)
    requires s.futures == {} ==> |s.submitted| == |source|
    ensures WaitsOk(source, max, [], s)
  {
  }

  lemma DoneCount(futures: set<nat>, done: set<nat>)
    requires done <= futures && done != {}
    ensures 1 <= |done| <= |futures| && (futures - done == {} <==> |done| == |futures|)
  {
    assert futures == done + (futures - done);
    if futures - done == {} { assert done == futures; }
  }
}
