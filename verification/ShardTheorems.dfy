/** What the network manager promises over every run of its requests, in any interleaving. */
module ShardTheorems {
  import opened Prelude
  import opened ShardPool
  import opened ShardInvariant
  import opened ShardRuns

  // ---- accounting ----------------------------------------------------------------------------

  /** At every await point a shard's in-flight count is the number of requests holding it, within
      capacity, and every started attempt is completed, failed, stalled or in flight. */
  lemma ShardAccounting(cfg: Config, run: seq<Step>, net: Net, id: nat)
    requires Reached(cfg, run, net) && id in net.shards
    ensures net.shards[id].inFlight == Tally(net.tasks, HolderKey, id) <= cfg.capacity
    ensures net.shards[id].started
      == net.shards[id].completed + net.shards[id].failed + net.shards[id].stalls + net.shards[id].inFlight
  {
    ReachedOk(cfg, run, net);
    assert ShardOk(cfg, net.shards[id], Tally(net.tasks, HolderKey, id));
  }

  /** `max(0, in_flight - 1)` never clamps: whoever releases a shard or a node's counter is counted there. */
  lemma ClampsNeverFire(cfg: Config, run: seq<Step>, net: Net, t: nat)
    requires Reached(cfg, run, net) && t < |net.tasks|
    ensures net.tasks[t].phase.Attempting? ==>
              net.tasks[t].phase.shard in net.shards && net.shards[net.tasks[t].phase.shard].inFlight >= 1
    ensures net.tasks[t].node.Some? && !Resolved(net.tasks[t].phase) ==>
      CounterOf(net, net.tasks[t].node.value).inFlight >= 1
  {
    ReachedOk(cfg, run, net);
    assert TaskOk(cfg, net.shards, net.tasks[t]);
    if net.tasks[t].phase.Attempting? {
      assert net.tasks[t].phase.shard in net.clients;
      EndShape(cfg, net, t, Response, 0);
    }
    if net.tasks[t].node.Some? && !Resolved(net.tasks[t].phase) {
      TallyPositive(net.tasks, t, NodeKey, net.tasks[t].node.value);
    }
  }

  /** A node's dispatched requests are completed, failed or in flight, and those in flight are its
      requests whose futures have not been told. */
  lemma NodeAccounting(cfg: Config, run: seq<Step>, net: Net, n: nat)
    requires Reached(cfg, run, net)
    ensures var c := CounterOf(net, n);
      c.dispatched == c.completed + c.failed + c.inFlight && c.inFlight == Tally(net.tasks, NodeKey, n)
  {
    ReachedOk(cfg, run, net);
  }

  // ---- retirement ----------------------------------------------------------------------------

  /** A new attempt, or none when its callback raises: only the request's own record changes, and the
      claimed shard was not retiring and had room. */
  lemma AttemptShape(cfg: Config, net: Net, t: nat, raises: bool, now: int)
    requires ClientsKnown(net) && ListsOk(net.shards, net.clients, net.closed, net.nextShardId) && t < |net.tasks|
    ensures var q := Attempt(cfg, net, t, raises, now); var x := net.tasks[t];
      && q.tasks == net.tasks[t := q.tasks[t]]
      && SameTerminals(net.shards, q.shards)
      && (raises ==> q.tasks[t] == x.(attempts := x.attempts + 1, phase := Finished, resolutions := x.resolutions + 1))
      && (!raises ==>
            && q.tasks[t].phase.Attempting?
            && q.tasks[t] == x.(attempts := x.attempts + 1, phase := q.tasks[t].phase,
               last := Some(q.tasks[t].phase.shard))
            && Open(cfg, net.shards, q.tasks[t].phase.shard))
  {
    AcquireTerminals(cfg, net);
    AcquireFresh(cfg, net);
    hide Acquire, ListsOk;
  }

  /** The request's last attempt, if any, leaves it a retry. */
  predicate Retryable(cfg: Config, x: Task)
    requires x.phase.Loose?
  {
    match x.phase.reason
    case Fresh => true
    case Ended => false
    case Stalled => x.cohortRetries < cfg.cohortLimit
    case Broken => x.transportRetries < cfg.transportLimit
  }

  predicate Open(cfg: Config, shards: map<nat, Shard>, id: nat) {
    id in shards ==> !shards[id].retiring && shards[id].inFlight < cfg.capacity
  }

  function ShardOf(shards: map<nat, Shard>, id: nat): Shard {
    if id in shards then shards[id] else NEW_SHARD
  }

  /** What of a shard is not about its holders. */
  function Record(shards: map<nat, Shard>, id: nat): Shard {
    ShardOf(shards, id).(inFlight := 0, started := 0)
  }

  ghost predicate SameTerminals(before: map<nat, Shard>, after: map<nat, Shard>) {
    && (forall id | id in before :: id in after)
    && (forall id: nat :: Record(after, id) == Record(before, id))
  }

  /** Claiming touches no request and no terminal counter. */
  lemma AcquireTerminals(cfg: Config, net: Net)
    requires ClientsKnown(net) && ListsOk(net.shards, net.clients, net.closed, net.nextShardId)
    ensures var q := Acquire(cfg, net).0; q.tasks == net.tasks && SameTerminals(net.shards, q.shards)
  {
  }

  /** What follows an attempt: only the request's own record changes, it ends or holds an open shard, and
      a replay has used up one of its retries. */
  lemma ProceedShape(cfg: Config, net: Net, t: nat, raises: bool, now: int)
    requires Enabled(net, ProceedStep(t, raises, now))
    requires ListsOk(net.shards, net.clients, net.closed, net.nextShardId)
    ensures var q := Proceed(cfg, net, t, raises, now); var x := net.tasks[t]; var y := q.tasks[t];
      && q.tasks == net.tasks[t := y]
      && SameTerminals(net.shards, q.shards)
      && (y.phase.Finished? || (y.phase.Attempting? && Open(cfg, net.shards, y.phase.shard)))
      && y.cohortRetries == x.cohortRetries
           + (if x.phase.reason == Stalled && x.cohortRetries < cfg.cohortLimit then 1 else 0)
      && y.transportRetries == x.transportRetries
           + (if x.phase.reason == Broken && x.transportRetries < cfg.transportLimit then 1 else 0)
      && (y.phase.Attempting? <==> Retryable(cfg, x) && !raises)
  {
    hide Attempt, ListsOk, Open, SameTerminals;
    var x := net.tasks[t];
    assert SameTerminals(net.shards, net.shards) by { SameReflexive(net.shards); }
    var cohort, transport := x.(cohortRetries := x.cohortRetries + 1), x.(transportRetries := x.transportRetries + 1);
    match x.phase.reason
    case Ended =>
    case Fresh => AttemptShape(cfg, net, t, raises, now);
    case Stalled =>
      if x.cohortRetries < cfg.cohortLimit { AttemptShape(cfg, SetTask(net, t, cohort), t, raises, now); }
    case Broken =>
      if x.transportRetries < cfg.transportLimit { AttemptShape(cfg, SetTask(net, t, transport), t, raises, now); }
  }

  lemma SameReflexive(shards: map<nat, Shard>)
    ensures SameTerminals(shards, shards)
  {
  }

  /** A request that starts an attempt never gets a retiring or full shard, nor the shard of the attempt it
      replaces. */
  lemma ReplayElsewhere(cfg: Config, run: seq<Step>, net: Net, t: nat, raises: bool, now: int)
    requires Reached(cfg, run, net) && Enabled(net, ProceedStep(t, raises, now))
    ensures var x := Proceed(cfg, net, t, raises, now).tasks[t];
      x.phase.Attempting? ==> Open(cfg, net.shards, x.phase.shard) && net.tasks[t].last != Some(x.phase.shard)
  {
    ReachedOk(cfg, run, net);
    assert TaskOk(cfg, net.shards, net.tasks[t]);
    ProceedShape(cfg, net, t, raises, now);
    hide Proceed;
  }

  /** A shard that has retired and stands empty is closed exactly once: either it is being closed by
      exactly one request and still listed, or it has been closed once and is gone from the list. */
  lemma ClosedOnce(cfg: Config, run: seq<Step>, net: Net, id: nat)
    requires Reached(cfg, run, net) && id in net.shards
    ensures Tally(net.closed, (x: nat) => x, id) + Tally(net.tasks, CloserKey, id)
         == if net.shards[id].retiring && net.shards[id].inFlight == 0 then 1 else 0
    ensures id in net.closed <==> id !in net.clients
  {
    ReachedOk(cfg, run, net);
    DistinctTally(net.closed, id);
  }

  lemma {:induction false} DistinctTally(s: seq<nat>, id: nat)
    requires Distinct(s)
    ensures Tally(s, (x: nat) => x, id) == if id in s then 1 else 0
  {
    if s != [] {
      assert Distinct(s[1..]) && s == [s[0]] + s[1..];
      DistinctTally(s[1..], id);
    }
  }

  /** When no request is left, every shard still listed could serve, and the closed ones are exactly the
      retired ones. */
  lemma AllClosedAtRest(cfg: Config, run: seq<Step>, net: Net, id: nat)
    requires Reached(cfg, run, net) && id in net.shards
    requires forall t | 0 <= t < |net.tasks| :: net.tasks[t].phase.Finished?
    ensures net.shards[id].inFlight == 0
    ensures id in net.closed <==> net.shards[id].retiring
    ensures id in net.clients <==> !net.shards[id].retiring
  {
    ReachedOk(cfg, run, net);
    assert ShardOk(cfg, net.shards[id], Tally(net.tasks, HolderKey, id));
    if Tally(net.tasks, HolderKey, id) > 0 { var t := TallyWitness(net.tasks, HolderKey, id); }
    if Tally(net.tasks, CloserKey, id) > 0 { var t := TallyWitness(net.tasks, CloserKey, id); }
  }

  // ---- the stall test ------------------------------------------------------------------------

  /** Ends of attempts on shard `id`, other than stalls, in the run. */
  ghost function EndsOn(cfg: Config, net: Net, run: seq<Step>, id: nat): nat
    requires Possible(cfg, net, run)
    decreases |run|
  {
    if run == [] then 0
    else
      var s := run[0];
      (if s.EndStep? && !s.outcome.Stall? && net.tasks[s.t].phase.shard == id then 1 else 0)
      + EndsOn(cfg, Apply(cfg, net, s), run[1..], id)
  }

  predicate EndsNot(run: seq<Step>, t: nat) {
    forall k | 0 <= k < |run| :: !(run[k].EndStep? && run[k].t == t)
  }

  /** From the start of an attempt on, `sibling_terminals` counts the sibling attempts on its shard that
      have ended since, by response or failure, and nothing else. */
  lemma {:induction false} SiblingsCounted(cfg: Config, net: Net, run: seq<Step>, t: nat)
    requires Inv(cfg, net) && Possible(cfg, net, run) && EndsNot(run, t)
    requires t < |net.tasks| && net.tasks[t].phase.Attempting?
    ensures var q := After(cfg, net, run); var phase := net.tasks[t].phase;
      && t < |q.tasks| && q.tasks[t] == net.tasks[t] && phase.shard in net.shards && phase.shard in q.shards
      && SiblingTerminals(q.shards[phase.shard], phase.baseline)
         == SiblingTerminals(net.shards[phase.shard], phase.baseline) + EndsOn(cfg, net, run, phase.shard)
    decreases |run|
  {
    assert net.tasks[t].phase.shard in net.clients;
    if run != [] {
      var q := Apply(cfg, net, run[0]);
      StepOk(cfg, net, run[0]);
      AttemptKept(cfg, net, run[0], t);
      assert EndsNot(run[1..], t) by { assert forall k | 0 <= k < |run[1..]| :: run[1..][k] == run[k + 1]; }
      hide Inv, Apply, Enabled;
      SiblingsCounted(cfg, q, run[1..], t);
    }
  }

  /** One step of the others: the attempt stays, and its shard's terminals grow by the step's. */
  lemma AttemptKept(cfg: Config, net: Net, s: Step, t: nat)
    requires Inv(cfg, net) && Enabled(net, s) && t < |net.tasks| && net.tasks[t].phase.Attempting?
    requires !(s.EndStep? && s.t == t)
    ensures var q := Apply(cfg, net, s); var id := net.tasks[t].phase.shard;
      && t < |q.tasks| && q.tasks[t] == net.tasks[t] && id in net.shards && id in q.shards
      && q.shards[id].completed + q.shards[id].failed == net.shards[id].completed + net.shards[id].failed
         + if s.EndStep? && !s.outcome.Stall? && net.tasks[s.t].phase.shard == id then 1 else 0
  {
    assert net.tasks[t].phase.shard in net.clients && net.tasks[t].phase.shard in net.shards;
    StepUses(cfg, net, s, t);
    StepRecords(cfg, net, s, net.tasks[t].phase.shard);
    StepOk(cfg, net, s);
    var q := Apply(cfg, net, s);
    hide Apply;
    assert q.tasks[t] == net.tasks[t] && q.tasks[t].phase.shard in q.clients;
    hide Inv;
  }

  /** An attempt begins with no siblings counted, and at any time the count is that of the terminals on its
      shard since it began, none of which is its own. */
  lemma StallEvidence(cfg: Config, run: seq<Step>, net: Net, t: nat)
    requires Reached(cfg, run, net) && t < |net.tasks| && net.tasks[t].phase.Attempting?
    ensures var a := net.tasks[t].phase;
      && a.shard in net.shards && a.since <= |net.log|
      && SiblingTerminals(net.shards[a.shard], a.baseline) == Tally(net.log[a.since..], ShardKey, a.shard)
      && forall k | a.since <= k < |net.log| :: net.log[k].task != t
  {
    ReachedOk(cfg, run, net);
    var a := net.tasks[t].phase;
    assert a.shard in net.clients && AttemptOk(net.tasks, net.log, t);
    TallyConcat(net.log[..a.since], net.log[a.since..], ShardKey, a.shard);
    assert net.log[..a.since] + net.log[a.since..] == net.log;
  }

  /** The stall test in words: old enough, a sibling ended since it began, and either enough siblings did
      or at least two did and no other request is left on the shard. */
  lemma StallExactly(cfg: Config, run: seq<Step>, net: Net, t: nat, now: int)
    requires Reached(cfg, run, net) && t < |net.tasks| && net.tasks[t].phase.Attempting?
    ensures var a := net.tasks[t].phase;
      && a.shard in net.shards
      && a.since <= |net.log|
      && var s := net.shards[a.shard]; var siblings := Tally(net.log[a.since..], ShardKey, a.shard);
         StallReason(cfg, s, a.baseline, a.startedAt, now) ==
         (now - a.startedAt >= cfg.stallSeconds && s.lastTerminal >= a.startedAt
          && (siblings >= cfg.evidence || (siblings >= 2 && Tally(net.tasks, HolderKey, a.shard) == 1)))
  {
    StallEvidence(cfg, run, net, t);
    ShardAccounting(cfg, run, net, net.tasks[t].phase.shard);
    TallyPositive(net.tasks, t, HolderKey, net.tasks[t].phase.shard);
  }

  /** A new attempt starts now, with no sibling counted and nothing of the log behind it. */
  lemma AttemptBegins(cfg: Config, run: seq<Step>, net: Net, t: nat, now: int)
    requires Reached(cfg, run, net) && Enabled(net, ProceedStep(t, false, now))
    ensures var q := Proceed(cfg, net, t, false, now); var a := q.tasks[t].phase;
      a.Attempting? ==> a.startedAt == now && a.since == |q.log| && a.shard in q.shards
                        && SiblingTerminals(q.shards[a.shard], a.baseline) == 0
  {
    hide Acquire;
    var x := net.tasks[t];
    AttemptBeginning(cfg, net, t, now);
    AttemptBeginning(cfg, SetTask(net, t, x.(cohortRetries := x.cohortRetries + 1)), t, now);
    AttemptBeginning(cfg, SetTask(net, t, x.(transportRetries := x.transportRetries + 1)), t, now);
    hide Attempt;
  }

  lemma AttemptBeginning(cfg: Config, net: Net, t: nat, now: int)
    requires ClientsKnown(net) && t < |net.tasks|
    ensures var q := Attempt(cfg, net, t, false, now); var a := q.tasks[t].phase;
      && a.Attempting? && a.startedAt == now && a.since == |q.log| && a.shard in q.shards
      && SiblingTerminals(q.shards[a.shard], a.baseline) == 0
  {
    AcquireCounts(cfg, net);
  }

  /** The clock never runs backwards in the run. */
  predicate Timed(run: seq<Step>, clock: int)
    decreases |run|
  {
    run == [] ||
    var now := if run[0].ProceedStep? || run[0].EndStep? then run[0].now else clock;
    clock <= now && Timed(run[1..], now)
  }

  /** A sibling that ends after the attempt's start leaves its mark on the shard's last terminal, so with a
      clock that does not run backwards the third condition of the stall test follows from the second. */
  lemma {:induction false} LastTerminalFollows(cfg: Config, net: Net, run: seq<Step>, t: nat, clock: int)
    requires Inv(cfg, net) && Possible(cfg, net, run) && EndsNot(run, t) && Timed(run, clock)
    requires t < |net.tasks| && net.tasks[t].phase.Attempting?
    ensures var id := net.tasks[t].phase.shard; var q := After(cfg, net, run);
      && id in net.shards && id in q.shards
      && (EndsOn(cfg, net, run, id) > 0 || net.shards[id].lastTerminal >= clock ==> q.shards[id].lastTerminal >= clock)
    decreases |run|
  {
    assert net.tasks[t].phase.shard in net.clients;
    if run != [] {
      var s := run[0];
      var q, id := Apply(cfg, net, s), net.tasks[t].phase.shard;
      var now := if s.ProceedStep? || s.EndStep? then s.now else clock;
      StepOk(cfg, net, s);
      AttemptKept(cfg, net, s, t);
      StepRecords(cfg, net, s, id);
      assert EndsNot(run[1..], t) by { assert forall k | 0 <= k < |run[1..]| :: run[1..][k] == run[k + 1]; }
      hide Inv, Apply, Enabled;
      TimedEarlier(run[1..], now, clock);
      LastTerminalFollows(cfg, q, run[1..], t, clock);
    }
  }

  lemma TimedEarlier(run: seq<Step>, clock: int, earlier: int)
    requires Timed(run, clock) && earlier <= clock
    ensures Timed(run, earlier)
  {
  }

  /** A stall is found while the response streams and handled once the stream has been closed; meanwhile the
      others go on.  What made the test hold then holds still: the attempt is old enough, a terminal followed its
      start, and two siblings have ended, or as many as there need be. */
  lemma VerdictLasts(cfg: Config, net: Net, run: seq<Step>, t: nat, found: int, handled: int)
    requires Inv(cfg, net) && Possible(cfg, net, run) && EndsNot(run, t) && Timed(run, found) && found <= handled
    requires t < |net.tasks| && net.tasks[t].phase.Attempting? && net.tasks[t].phase.shard in net.shards
    requires var a := net.tasks[t].phase;
      a.startedAt <= found && StallReason(cfg, net.shards[a.shard], a.baseline, a.startedAt, found)
    ensures var q := After(cfg, net, run); var a := net.tasks[t].phase;
      && t < |q.tasks| && q.tasks[t] == net.tasks[t] && a.shard in q.shards
      && handled - a.startedAt >= cfg.stallSeconds && q.shards[a.shard].lastTerminal >= a.startedAt
      && SiblingTerminals(q.shards[a.shard], a.baseline) >= Min(2, cfg.evidence)
  {
    SiblingsCounted(cfg, net, run, t);
    TimedEarlier(run, found, net.tasks[t].phase.startedAt);
    LastTerminalFollows(cfg, net, run, t, net.tasks[t].phase.startedAt);
  }

  // ---- population ----------------------------------------------------------------------------

  /** The most requests ever in flight on shards that still take work, over the states of a run. */
  ghost function PeakOver(cfg: Config, net: Net, run: seq<Step>): nat
    requires Possible(cfg, net, run)
    decreases |run|
  {
    var here := LiveFlight(net.shards, net.clients);
    if run == [] then here else Max(here, PeakOver(cfg, Apply(cfg, net, run[0]), run[1..]))
  }

  lemma {:induction false} PeakObserved(cfg: Config, net: Net, run: seq<Step>)
    requires Possible(cfg, net, run)
    ensures After(cfg, net, run).peak <= Max(net.peak, PeakOver(cfg, net, run))
    decreases |run|
  {
    if run != [] {
      var q := Apply(cfg, net, run[0]);
      assert q.peak <= Max(net.peak, LiveFlight(q.shards, q.clients)) by { PeakStep(cfg, net, run[0]); }
      hide Apply, Enabled, LiveFlight;
      PeakObserved(cfg, q, run[1..]);
    }
  }

  lemma PeakStep(cfg: Config, net: Net, s: Step)
    requires Enabled(net, s)
    ensures var q := Apply(cfg, net, s); q.peak <= Max(net.peak, LiveFlight(q.shards, q.clients))
  {
    hide Pick, LiveFlight, Attempt;
    if s.ProceedStep? {
      var x := net.tasks[s.t];
      PeakAttempt(cfg, net, s.t, s.raises, s.now);
      PeakAttempt(cfg, SetTask(net, s.t, x.(cohortRetries := x.cohortRetries + 1)), s.t, s.raises, s.now);
      PeakAttempt(cfg, SetTask(net, s.t, x.(transportRetries := x.transportRetries + 1)), s.t, s.raises, s.now);
    }
  }

  lemma PeakAttempt(cfg: Config, net: Net, t: nat, raises: bool, now: int)
    requires ClientsKnown(net) && t < |net.tasks|
    ensures var q := Attempt(cfg, net, t, raises, now); q.peak <= Max(net.peak, LiveFlight(q.shards, q.clients))
  {
    hide Pick, LiveFlight;
  }

  /** Over any run the shards that still take work number at most the peak load over the capacity, rounded up. */
  lemma PopulationBound(cfg: Config, run: seq<Step>, net: Net)
    requires Reached(cfg, run, net)
    ensures LiveShards(net.shards, net.clients) <= Ceil(PeakOver(cfg, EMPTY_NET, run), cfg.capacity)
  {
    ReachedOk(cfg, run, net);
    PeakObserved(cfg, EMPTY_NET, run);
    CeilMonotone(net.peak, PeakOver(cfg, EMPTY_NET, run), cfg.capacity);
  }

  // ---- retries -------------------------------------------------------------------------------

  /** Attempts are bounded by the two retry budgets, and the future is resolved exactly once: not before the
      outcome is known, and always by the end. */
  lemma BoundedRetries(cfg: Config, run: seq<Step>, net: Net, t: nat)
    requires Reached(cfg, run, net) && t < |net.tasks|
    ensures net.tasks[t].attempts <= 1 + cfg.cohortLimit + cfg.transportLimit
    ensures net.tasks[t].resolutions == if Resolved(net.tasks[t].phase) then 1 else 0
    ensures net.tasks[t].phase.Finished? ==> net.tasks[t].resolutions == 1
  {
    ReachedOk(cfg, run, net);
    assert TaskOk(cfg, net.shards, net.tasks[t]);
  }

  /** What a request may still have to do: its unspent retries, then its place within an attempt. */
  function Remaining(cfg: Config, t: Task): int {
    4 * (cfg.cohortLimit - t.cohortRetries + cfg.transportLimit - t.transportRetries)
    + match t.phase
      case Attempting(_, _, _, _) => 3
      case Closing(_, _) => 2
      case Loose(reason) => if reason == Fresh then 4 else 1
      case Finished => 0
  }

  predicate Own(s: Step, t: nat) {
    (s.ProceedStep? && s.t == t) || (s.EndStep? && s.t == t) || (s.CloseStep? && s.t == t)
  }

  function OwnSteps(run: seq<Step>, t: nat): nat {
    if run == [] then 0 else (if Own(run[0], t) then 1 else 0) + OwnSteps(run[1..], t)
  }

  /** Each segment of a request uses some of its remaining work up; no other request's does. */
  lemma StepUses(cfg: Config, net: Net, s: Step, t: nat)
    requires Inv(cfg, net) && Enabled(net, s) && t < |net.tasks|
    ensures var q := Apply(cfg, net, s);
      && t < |q.tasks|
      && (if Own(s, t) then Remaining(cfg, q.tasks[t]) < Remaining(cfg, net.tasks[t]) else q.tasks[t] == net.tasks[t])
      && Remaining(cfg, net.tasks[t]) >= 0
  {
    hide Inv, Proceed, EndAttempt, Begin, EndClose, Retire, Remaining, TaskOk;
    TaskIn(cfg, net, t);
    RemainingPositive(cfg, net, t);
    match s
    case BeginStep(node) => BeginUses(net, node, t);
    case ProceedStep(u, raises, now) => ProceedUses(cfg, net, u, raises, now, t);
    case EndStep(u, outcome, now) => EndUses(cfg, net, u, outcome, now, t);
    case CloseStep(u) => CloseUses(cfg, net, u, t);
    case RetireStep(u) => RetireUses(net, u);
  }

  lemma TaskIn(cfg: Config, net: Net, t: nat)
    requires Inv(cfg, net) && t < |net.tasks|
    ensures TaskOk(cfg, net.shards, net.tasks[t])
  {
  }

  lemma RemainingPositive(cfg: Config, net: Net, t: nat)
    requires t < |net.tasks| && TaskOk(cfg, net.shards, net.tasks[t])
    ensures Remaining(cfg, net.tasks[t]) >= 0
  {
  }

  lemma BeginUses(net: Net, node: Option<nat>, t: nat)
    requires t < |net.tasks|
    ensures var q := Begin(net, node); t < |q.tasks| && q.tasks[t] == net.tasks[t]
  {
  }

  lemma ProceedUses(cfg: Config, net: Net, u: nat, raises: bool, now: int, t: nat)
    requires Inv(cfg, net) && Enabled(net, ProceedStep(u, raises, now)) && t < |net.tasks|
    requires TaskOk(cfg, net.shards, net.tasks[t])
    ensures var q := Proceed(cfg, net, u, raises, now);
      && t < |q.tasks|
      && if u == t then Remaining(cfg, q.tasks[t]) < Remaining(cfg, net.tasks[t]) else q.tasks[t] == net.tasks[t]
  {
    hide Proceed, Open;
    ProceedShape(cfg, net, u, raises, now);
    hide Inv, TaskOk;
  }

  lemma EndUses(cfg: Config, net: Net, u: nat, outcome: Outcome, now: int, t: nat)
    requires Inv(cfg, net) && Enabled(net, EndStep(u, outcome, now)) && t < |net.tasks|
    ensures var q := EndAttempt(net, u, outcome, now);
      && t < |q.tasks|
      && if u == t then Remaining(cfg, q.tasks[t]) < Remaining(cfg, net.tasks[t]) else q.tasks[t] == net.tasks[t]
  {
    hide EndAttempt;
    EndShape(cfg, net, u, outcome, now);
    hide Inv;
  }

  lemma CloseUses(cfg: Config, net: Net, u: nat, t: nat)
    requires u < |net.tasks| && net.tasks[u].phase.Closing? && t < |net.tasks|
    requires TaskOk(cfg, net.shards, net.tasks[t])
    ensures var q := EndClose(net, u);
      && t < |q.tasks|
      && if u == t then Remaining(cfg, q.tasks[t]) < Remaining(cfg, net.tasks[t]) else q.tasks[t] == net.tasks[t]
  {
  }

  lemma RetireUses(net: Net, u: nat)
    requires u < |net.tasks| && net.tasks[u].phase.Attempting? && net.tasks[u].phase.shard in net.shards
    ensures Retire(net, u).tasks == net.tasks
  {
  }

  /** A request ends after boundedly many segments of its own, whatever the others do. */
  lemma {:induction false} RequestEnds(cfg: Config, net: Net, run: seq<Step>, t: nat)
    requires Inv(cfg, net) && Possible(cfg, net, run) && t < |net.tasks|
    ensures OwnSteps(run, t) <= Remaining(cfg, net.tasks[t])
    decreases |run|
  {
    if run == [] {
      StepUses(cfg, net, BeginStep(None), t);
    } else {
      StepUses(cfg, net, run[0], t);
      StepOk(cfg, net, run[0]);
      hide Inv, Apply, Enabled, Remaining;
      RequestEnds(cfg, Apply(cfg, net, run[0]), run[1..], t);
    }
  }

  // ---- counters and causes -------------------------------------------------------------------

  /** Attempts on shard `id` that ended as `outcome` in the run. */
  ghost function Ends(cfg: Config, net: Net, run: seq<Step>, id: nat, outcome: Outcome): nat
    requires Possible(cfg, net, run)
    decreases |run|
  {
    if run == [] then 0
    else (if EndsAs(net, run[0], id, outcome) then 1 else 0) + Ends(cfg, Apply(cfg, net, run[0]), run[1..], id, outcome)
  }

  predicate EndsAs(net: Net, s: Step, id: nat, outcome: Outcome) {
    s.EndStep? && s.outcome == outcome && OnShard(net, s.t, id)
  }

  predicate OnShard(net: Net, t: nat, id: nat) {
    t < |net.tasks| && net.tasks[t].phase.Attempting? && net.tasks[t].phase.shard == id
  }

  /** A stall, a transport error or JSON left open on shard `id`. */
  predicate Poisons(net: Net, s: Step, id: nat) {
    EndsAs(net, s, id, Stall) || EndsAs(net, s, id, TransportError) || (s.RetireStep? && OnShard(net, s.t, id))
  }

  ghost predicate Poisoned(cfg: Config, net: Net, run: seq<Step>, id: nat)
    requires Possible(cfg, net, run)
    decreases |run|
  {
    run != [] && (Poisons(net, run[0], id) || Poisoned(cfg, Apply(cfg, net, run[0]), run[1..], id))
  }

  ghost predicate RecordStep(net: Net, s: Step, q: Net, id: nat) {
    var before, after := Record(net.shards, id), Record(q.shards, id);
    && after.completed == before.completed + (if EndsAs(net, s, id, Response) then 1 else 0)
    && after.stalls == before.stalls + (if EndsAs(net, s, id, Stall) then 1 else 0)
    && after.failed == before.failed
       + (if EndsAs(net, s, id, TransportError) || EndsAs(net, s, id, OtherError) then 1 else 0)
    && after.retiring == (before.retiring || Poisons(net, s, id))
    && after.lastTerminal == if s.EndStep? && !s.outcome.Stall? && OnShard(net, s.t, id) then s.now
       else before.lastTerminal
  }

  lemma StepRecords(cfg: Config, net: Net, s: Step, id: nat)
    requires Inv(cfg, net) && Enabled(net, s)
    ensures RecordStep(net, s, Apply(cfg, net, s), id)
  {
    hide Proceed, EndAttempt, RecordStep;
    match s
    case ProceedStep(t, raises, now) => ProceedRecords(cfg, net, t, raises, now, id);
    case EndStep(t, outcome, now) => EndRecords(cfg, net, t, outcome, now, id);
    case _ => OtherRecords(cfg, net, s, id);
  }

  lemma ProceedRecords(cfg: Config, net: Net, t: nat, raises: bool, now: int, id: nat)
    requires Inv(cfg, net) && Enabled(net, ProceedStep(t, raises, now))
    ensures RecordStep(net, ProceedStep(t, raises, now), Proceed(cfg, net, t, raises, now), id)
  {
    ProceedShape(cfg, net, t, raises, now);
    hide Inv, Proceed, Open;
  }

  lemma OtherRecords(cfg: Config, net: Net, s: Step, id: nat)
    requires Enabled(net, s) && !s.ProceedStep? && !s.EndStep?
    ensures RecordStep(net, s, Apply(cfg, net, s), id)
  {
    hide Resolve, CounterOf;
  }

  lemma EndRecords(cfg: Config, net: Net, t: nat, outcome: Outcome, now: int, id: nat)
    requires HoldersOk(cfg, net.shards, net.tasks)
    requires t < |net.tasks| && net.tasks[t].phase.Attempting? && net.tasks[t].phase.shard in net.shards
    ensures RecordStep(net, EndStep(t, outcome, now), EndAttempt(net, t, outcome, now), id)
  {
    EndShape(cfg, net, t, outcome, now);
    hide EndAttempt, HoldersOk;
  }

  lemma {:induction false} RecordsOver(cfg: Config, net: Net, run: seq<Step>, id: nat)
    requires Inv(cfg, net) && Possible(cfg, net, run)
    ensures var before, after := Record(net.shards, id), Record(After(cfg, net, run).shards, id);
      && after.completed == before.completed + Ends(cfg, net, run, id, Response)
      && after.stalls == before.stalls + Ends(cfg, net, run, id, Stall)
      && after.failed == before.failed + Ends(cfg, net, run, id, TransportError) + Ends(cfg, net, run, id, OtherError)
      && after.retiring == (before.retiring || Poisoned(cfg, net, run, id))
    decreases |run|
  {
    hide Inv, Apply, Enabled, EndsAs, Poisons, Record;
    if run != [] {
      StepRecords(cfg, net, run[0], id);
      OneOutcome(net, run[0], id);
      StepOk(cfg, net, run[0]);
      RecordsOver(cfg, Apply(cfg, net, run[0]), run[1..], id);
    }
  }

  lemma OneOutcome(net: Net, s: Step, id: nat)
    ensures !(EndsAs(net, s, id, TransportError) && EndsAs(net, s, id, OtherError))
  {
  }

  /** A shard's counters are the numbers of its attempts that ended in each way, and it is retiring exactly
      when a stall, a transport error or JSON without stream termination happened on it. */
  lemma ShardOutcomes(cfg: Config, run: seq<Step>, net: Net, id: nat)
    requires Reached(cfg, run, net) && id in net.shards
    ensures var s := net.shards[id];
      && s.completed == Ends(cfg, EMPTY_NET, run, id, Response)
      && s.stalls == Ends(cfg, EMPTY_NET, run, id, Stall)
      && s.failed == Ends(cfg, EMPTY_NET, run, id, TransportError) + Ends(cfg, EMPTY_NET, run, id, OtherError)
      && (s.retiring <==> Poisoned(cfg, EMPTY_NET, run, id))
  {
    EmptyOk(cfg);
    RecordsOver(cfg, EMPTY_NET, run, id);
  }

  // ---- a node's counters ---------------------------------------------------------------------

  /** Requests of node `n` answered, and begun, in the run. */
  ghost function Answered(cfg: Config, net: Net, run: seq<Step>, n: nat): nat
    requires Possible(cfg, net, run)
    decreases |run|
  {
    if run == [] then 0
    else
      (if run[0].EndStep? && run[0].outcome.Response? && net.tasks[run[0].t].node == Some(n) then 1 else 0)
      + Answered(cfg, Apply(cfg, net, run[0]), run[1..], n)
  }

  function Begun(run: seq<Step>, n: nat): nat {
    if run == [] then 0 else (if run[0] == BeginStep(Some(n)) then 1 else 0) + Begun(run[1..], n)
  }

  lemma StepNodes(cfg: Config, net: Net, s: Step, n: nat)
    requires ClientsKnown(net) && Enabled(net, s)
    ensures var before, after := CounterOf(net, n), CounterOf(Apply(cfg, net, s), n);
      && after.completed == before.completed
           + (if s.EndStep? && s.outcome.Response? && net.tasks[s.t].node == Some(n) then 1 else 0)
      && after.dispatched == before.dispatched + (if s == BeginStep(Some(n)) then 1 else 0)
  {
    if s.ProceedStep? {
      ProceedNodes(cfg, net, s.t, s.raises, s.now, n);
      hide Proceed;
    }
  }

  lemma ProceedNodes(cfg: Config, net: Net, t: nat, raises: bool, now: int, n: nat)
    requires Enabled(net, ProceedStep(t, raises, now))
    ensures var before, after := CounterOf(net, n), CounterOf(Proceed(cfg, net, t, raises, now), n);
      after.completed == before.completed && after.dispatched == before.dispatched
  {
    hide Attempt;
    var x := net.tasks[t];
    AttemptNodes(cfg, net, t, raises, now, n);
    AttemptNodes(cfg, SetTask(net, t, x.(cohortRetries := x.cohortRetries + 1)), t, raises, now, n);
    AttemptNodes(cfg, SetTask(net, t, x.(transportRetries := x.transportRetries + 1)), t, raises, now, n);
  }

  lemma AttemptNodes(cfg: Config, net: Net, t: nat, raises: bool, now: int, n: nat)
    requires ClientsKnown(net) && t < |net.tasks|
    ensures var before, after := CounterOf(net, n), CounterOf(Attempt(cfg, net, t, raises, now), n);
      after.completed == before.completed && after.dispatched == before.dispatched
  {
    AcquireCounts(cfg, net);
    hide Acquire;
  }

  lemma {:induction false} NodesOver(cfg: Config, net: Net, run: seq<Step>, n: nat)
    requires Inv(cfg, net) && Possible(cfg, net, run)
    ensures var before, after := CounterOf(net, n), CounterOf(After(cfg, net, run), n);
      && after.completed == before.completed + Answered(cfg, net, run, n)
      && after.dispatched == before.dispatched + Begun(run, n)
    decreases |run|
  {
    hide Apply, Enabled, CounterOf;
    if run != [] {
      StepNodes(cfg, net, run[0], n);
      StepOk(cfg, net, run[0]);
      hide Inv;
      NodesOver(cfg, Apply(cfg, net, run[0]), run[1..], n);
    }
  }

  /** A node's completed requests are those that got a response, and its failed ones are the rest of those
      dispatched that are no longer in flight. */
  lemma NodeOutcomes(cfg: Config, run: seq<Step>, net: Net, n: nat)
    requires Reached(cfg, run, net)
    ensures var c := CounterOf(net, n);
      && c.dispatched == Begun(run, n)
      && c.completed == Answered(cfg, EMPTY_NET, run, n)
      && c.failed == Begun(run, n) - Answered(cfg, EMPTY_NET, run, n) - Tally(net.tasks, NodeKey, n)
  {
    EmptyOk(cfg);
    NodesOver(cfg, EMPTY_NET, run, n);
    NodeAccounting(cfg, run, net, n);
  }

  // ---- the choice of a shard -----------------------------------------------------------------

  /** A request claims the busiest shard with room, the first such in rotation order, which is considered
      last next time; only when no listed shard has room is one created, after the others. */
  lemma ClaimChoice(cfg: Config, net: Net)
    requires ClientsKnown(net)
    ensures var (q, id) := Acquire(cfg, net);
      if exists c :: c in net.clients && Eligible(cfg, net, c) then
        && q.clients == net.clients != []
        && (exists k :: Busiest(cfg, net, |net.clients|, k) && id == net.clients[Rotated(net, k)])
        && q.clients[Rotated(q, |q.clients| - 1)] == id
      else q.clients == net.clients + [id] && id == net.nextShardId && Rotated(q, |q.clients| - 1) == |q.clients| - 1
  {
    if Pick(cfg, net).None? {
      PickNone(cfg, net);
      DivModUnique(|net.clients|, |net.clients| + 1, 0, |net.clients|);
    } else {
      var n, best := |net.clients|, Pick(cfg, net).value;
      BestOfSpec(cfg, net, n);
      assert net.clients[best] in net.clients;
      if best + 1 < n {
        DivModUnique(best + 1, n, 0, best + 1);
        DivModUnique(best + 1 + (n - 1), n, 1, best);
      } else {
        DivModUnique(n, n, 1, 0);
        DivModUnique(n - 1, n, 0, n - 1);
      }
    }
  }
}
