/**
 The process pool's lazy run as a value: its state, what each operation does to it, and the accounting they
 keep: at most `max` jobs are outstanding, and each submitted job is reported once unless it was cancelled.
 */
module ProcessModel {
  import opened Prelude

  /** What the next turn of the source and the submission of its item come to. */
  datatype Pull = Submits(item: int) | SourceRaises(error: int) | SubmitRaises(item: int, error: int)

  datatype Outcome = Value(value: int) | Error(error: int)

  /** Job `id` is the `id`-th submitted. */
  datatype Report = Report(id: nat, item: int, outcome: Outcome)

  /** `most` records the largest number of jobs ever outstanding. */
  datatype State = State(
    submitted: seq<int>,
    sourceExhausted: bool,
    futures: set<nat>,
    cancelled: set<nat>,
    reports: seq<Report>,
    results: seq<int>,
    most: nat)

  const IDLE := State([], false, {}, {}, [], [], 0)

  function ReportKey(r: Report): int { r.id }

  /** The values reported, in the order of their reports. */
  function Values(reports: seq<Report>): seq<int> {
    if reports == [] then []
    else
      var last := reports[|reports| - 1];
      Values(reports[..|reports| - 1]) + if last.outcome.Value? then [last.outcome.value] else []
  }

  predicate AllValues(reports: seq<Report>) {
    forall k | 0 <= k < |reports| :: reports[k].outcome.Value?
  }

  /** Every submitted job is outstanding, cancelled, or reported once, as the item it ran and what it came to. */
  ghost predicate Accounted(outcome: nat -> Outcome, s: State) {
    && (forall id | id in s.futures :: id < |s.submitted| && id !in s.cancelled)
    && (forall id | id in s.cancelled :: id < |s.submitted|)
    && (forall id: nat :: Tally(s.reports, ReportKey, id)
          == if id < |s.submitted| && id !in s.futures && id !in s.cancelled then 1 else 0)
    && (forall k | 0 <= k < |s.reports| ::
          var r := s.reports[k]; r.id < |s.submitted| && r.item == s.submitted[r.id] && r.outcome == outcome(r.id))
  }

  ghost predicate Inv(source: seq<Pull>, outcome: nat -> Outcome, max: nat, s: State) {
    && |s.submitted| <= |source| && (forall k | 0 <= k < |s.submitted| :: source[k] == Submits(s.submitted[k]))
    && (s.sourceExhausted ==> |s.submitted| == |source|)
    && |s.futures| <= s.most <= max
    && Accounted(outcome, s)
    && s.results == Values(s.reports)
  }

  /** Why a run raises: the source or a submission did, after only values; or a job failed, the first to. */
  ghost predicate FirstError(source: seq<Pull>, s: State, reported: nat, error: int) {
    && reported <= |s.reports|
    && ((AllValues(s.reports[..reported]) && |s.submitted| < |source|
         && (source[|s.submitted|] == SourceRaises(error)
             || (source[|s.submitted|].SubmitRaises? && source[|s.submitted|].error == error)))
        || (reported > 0 && AllValues(s.reports[..reported - 1]) && s.reports[reported - 1].outcome == Error(error)))
  }

  datatype Result = Returned(values: seq<int>) | Raised(error: int)

  // ---- steps ---------------------------------------------------------------------------------

  function Submitted(s: State, item: int): State {
    var futures := s.futures + {|s.submitted|};
    s.(submitted := s.submitted + [item], futures := futures, most := if |futures| > s.most then |futures| else s.most)
  }

  lemma SubmitOk(source: seq<Pull>, outcome: nat -> Outcome, max: nat, s: State)
    requires Inv(source, outcome, max, s) && |s.futures| < max
    requires |s.submitted| < |source| && source[|s.submitted|].Submits?
    ensures Inv(source, outcome, max, Submitted(s, source[|s.submitted|].item))
  {
    var id := |s.submitted|;
    assert id !in s.futures;
    assert |s.futures + {id}| == |s.futures| + 1;
  }

  /** The job's outcome is reported and its future dropped. */
  function Reported(outcome: nat -> Outcome, s: State, id: nat): State
    requires id < |s.submitted|
  {
    s.(futures := s.futures - {id},
       reports := s.reports + [Report(id, s.submitted[id], outcome(id))],
       results := if outcome(id).Value? then s.results + [outcome(id).value] else s.results)
  }

  lemma ReportOk(source: seq<Pull>, outcome: nat -> Outcome, max: nat, s: State, id: nat)
    requires Inv(source, outcome, max, s) && id in s.futures
    ensures Inv(source, outcome, max, Reported(outcome, s, id)) && |s.futures - {id}| == |s.futures| - 1
  {
    var r := Report(id, s.submitted[id], outcome(id));
    assert (s.reports + [r])[..|s.reports|] == s.reports;
    forall i: nat
      ensures Tally(s.reports + [r], ReportKey, i) == Tally(s.reports, ReportKey, i) + if i == id then 1 else 0
    {
      TallyAppend(s.reports, r, ReportKey, i);
    }
    assert |s.futures - {id}| == |s.futures| - 1;
  }

  lemma CancelOk(source: seq<Pull>, outcome: nat -> Outcome, max: nat, s: State, id: nat)
    requires Inv(source, outcome, max, s) && id in s.futures
    ensures Inv(source, outcome, max, s.(futures := s.futures - {id}, cancelled := s.cancelled + {id}))
    ensures |s.futures - {id}| == |s.futures| - 1
  {
    assert |s.futures - {id}| == |s.futures| - 1;
  }

  /** A wait that ended: the jobs outstanding, how many of them it found finished, and the jobs submitted. */
  datatype Wait = Wait(outstanding: nat, finished: nat, submitted: nat)

  /** Every wait finds the pool full or the source fully submitted, and only the last one empties it. */
  ghost predicate WaitsOk(source: seq<Pull>, max: nat, waits: seq<Wait>, s: State) {
    && (forall k | 0 <= k < |waits| ::
          && 1 <= waits[k].finished <= waits[k].outstanding <= max && waits[k].outstanding <= waits[k].submitted
          && (waits[k].outstanding == max || waits[k].submitted == |source|))
    && (forall k | 0 <= k < |waits| - 1 :: waits[k].finished < waits[k].outstanding)
    && (if waits == [] then s.futures == {} ==> |s.submitted| == |source|
        else waits[|waits| - 1].submitted == |s.submitted|
             && (s.futures == {} <==> waits[|waits| - 1].finished == waits[|waits| - 1].outstanding))
  }

  lemma WaitAdded(source: seq<Pull>, max: nat, waits: seq<Wait>, before: State, filled: State, after: State,
      finished: nat)
    requires WaitsOk(source, max, waits, before) && before.futures != {}
    requires filled.submitted == after.submitted && 1 <= finished <= |filled.futures| <= max
    requires |filled.futures| == max || |filled.submitted| == |source|
    requires |filled.futures| <= |filled.submitted|
    requires after.futures == {} <==> finished == |filled.futures|
    ensures WaitsOk(source, max, waits + [Wait(|filled.futures|, finished, |filled.submitted|)], after)
  {
  }

  /** Some wait found every outstanding job finished while the source had more. */
  ghost predicate CutShort(source: seq<Pull>, waits: seq<Wait>) {
    exists k :: 0 <= k < |waits| && waits[k].finished == waits[k].outstanding && waits[k].submitted < |source|
  }

  lemma CutShortExactly(source: seq<Pull>, max: nat, waits: seq<Wait>, s: State)
    requires WaitsOk(source, max, waits, s) && s.futures == {} && |s.submitted| <= |source|
    ensures |s.submitted| < |source| <==> CutShort(source, waits)
    ensures |source| <= max ==> |s.submitted| == |source|
  {
    if |s.submitted| < |source| {
      assert waits[|waits| - 1].finished == waits[|waits| - 1].outstanding;
    }
  }

  // ---- what the accounting means -------------------------------------------------------------

  /** A return that read the whole source has collected every item's value once: as many values as items,
      each job's among them. */
  lemma {:induction false} CompleteReturn(source: seq<Pull>, outcome: nat -> Outcome, max: nat, s: State, id: nat)
    requires Inv(source, outcome, max, s) && s.futures == {} && s.cancelled == {} && AllValues(s.reports)
    requires id < |s.submitted|
    ensures outcome(id).Value? && |s.results| == |s.submitted| == |s.reports|
    ensures exists k ::
      0 <= k < |s.reports| && s.reports[k] == Report(id, s.submitted[id], outcome(id))
      && s.results[k] == outcome(id).value
    ensures forall j, k | 0 <= j < k < |s.reports| :: !(s.reports[j].id == id && s.reports[k].id == id)
  {
    var k := TallyWitness(s.reports, ReportKey, id);
    assert s.reports[k].outcome.Value?;
    ValuesInOrder(s.reports);
    ReportsCount(s.reports, |s.submitted|);
    forall j, m | 0 <= j < m < |s.reports| ensures !(s.reports[j].id == id && s.reports[m].id == id) {
      if s.reports[j].id == id && s.reports[m].id == id { TallyTwo(s.reports, j, m, ReportKey, id); }
    }
  }

  /** One value for each report, in the order of the reports. */
  lemma {:induction false} ValuesInOrder(reports: seq<Report>)
    requires AllValues(reports)
    ensures |Values(reports)| == |reports|
    ensures forall k | 0 <= k < |reports| :: reports[k].outcome == Value(Values(reports)[k])
  {
    if reports != [] { ValuesInOrder(reports[..|reports| - 1]); }
  }

  /** When each of the first `n` jobs is reported once, and no other, there are `n` reports. */
  lemma {:induction false} ReportsCount(reports: seq<Report>, n: nat)
    requires forall id: nat :: Tally(reports, ReportKey, id) == if id < n then 1 else 0
    ensures |reports| == n
    decreases |reports|
  {
    if reports == [] {
      assert n > 0 ==> Tally(reports, ReportKey, 0) == 1;
    } else {
      TallyPositive(reports, 0, ReportKey, reports[0].id);
      assert reports[0].id < n;
      var k := TallyWitness(reports, ReportKey, n - 1);
      var rest := reports[..k] + reports[k + 1..];
      forall id: nat ensures Tally(rest, ReportKey, id) == if id < n - 1 then 1 else 0 {
        TallyRemove(reports, k, ReportKey, id);
      }
      ReportsCount(rest, n - 1);
    }
  }

  /** Ids of submitted jobs: there are at most as many as jobs. */
  lemma {:induction false} IdsBelow(ids: set<nat>, n: nat)
    requires forall id | id in ids :: id < n
    ensures |ids| <= n
  {
    if n == 0 {
      assert ids == {};
    } else {
      var rest := ids - {n - 1};
      IdsBelow(rest, n - 1);
      if n - 1 in ids { assert ids == rest + {n - 1}; } else { assert ids == rest; }
    }
  }
}
