/**
 The network manager's request coroutine as the source writes it: methods that update the pool in place,
 with the other requests running at every await.  `Execute` is proved to end as its own attempts' outcomes
 dictate, whatever the others do.
 */
module ShardManager {
  import opened Prelude
  import opened ShardPool
  import opened ShardInvariant
  import opened ShardRuns
  import opened ShardTheorems

  /** What happens to one attempt: its callback raises, or it ends somehow at some time. */
  datatype Trial = Trial(raises: bool, startedAt: int, outcome: Outcome, endedAt: int)

  datatype Fate = Fate(answered: bool, attempts: nat)

  /** How a request ends whose attempts go as `trials`, with `cohort` and `transport` retries used up. */
  function FateOf(cfg: Config, trials: seq<Trial>, cohort: nat, transport: nat): (fate: Fate)
    requires cohort <= cfg.cohortLimit && transport <= cfg.transportLimit
    requires |trials| > cfg.cohortLimit - cohort + cfg.transportLimit - transport
    ensures 1 <= fate.attempts <= |trials|
    ensures fate.answered <==> !trials[fate.attempts - 1].raises && trials[fate.attempts - 1].outcome.Response?
    decreases |trials|
  {
    var trial := trials[0];
    if trial.raises then Fate(false, 1)
    else
      match trial.outcome
      case Response => Fate(true, 1)
      case OtherError => Fate(false, 1)
      case Stall =>
        if cohort == cfg.cohortLimit then Fate(false, 1)
        else var rest := FateOf(cfg, trials[1..], cohort + 1, transport); Fate(rest.answered, rest.attempts + 1)
      case TransportError =>
        if transport == cfg.transportLimit then Fate(false, 1)
        else var rest := FateOf(cfg, trials[1..], cohort, transport + 1); Fate(rest.answered, rest.attempts + 1)
  }

  /** What an attempt was, as far as retries go. */
  function TrialKey(trial: Trial): int {
    if trial.raises then 0
    else match trial.outcome case Stall => 1 case TransportError => 2 case Response => 3 case OtherError => 4
  }

  /** All but the last of the first `n` trials stalled or broke, within the budgets left; and the last, if it did too,
      finds its budget spent. */
  ghost predicate StopsAfter(cfg: Config, trials: seq<Trial>, cohort: nat, transport: nat, n: nat)
    requires 1 <= n <= |trials|
  {
    var stalls, breaks := Tally(trials[..n - 1], TrialKey, 1), Tally(trials[..n - 1], TrialKey, 2);
    && (forall k | 0 <= k < n - 1 :: TrialKey(trials[k]) in {1, 2})
    && cohort + stalls <= cfg.cohortLimit && transport + breaks <= cfg.transportLimit
    && (TrialKey(trials[n - 1]) == 1 ==> cohort + stalls == cfg.cohortLimit)
    && (TrialKey(trials[n - 1]) == 2 ==> transport + breaks == cfg.transportLimit)
  }

  lemma StopsLater(cfg: Config, trials: seq<Trial>, cohort: nat, transport: nat, n: nat)
    requires 2 <= n <= |trials| && TrialKey(trials[0]) in {1, 2}
    requires StopsAfter(cfg, trials[1..], cohort + (if TrialKey(trials[0]) == 1 then 1 else 0),
      transport + (if TrialKey(trials[0]) == 2 then 1 else 0), n - 1)
    ensures StopsAfter(cfg, trials, cohort, transport, n)
  {
    var rest := trials[1..];
    assert trials[..n - 1][1..] == rest[..n - 2] && trials[..n - 1][0] == trials[0];
    forall k | 0 <= k < n - 1 ensures TrialKey(trials[k]) in {1, 2} {
      if k > 0 { assert rest[k - 1] == trials[k]; }
    }
  }

  /** A request makes attempts while they stall or break and the budget for that is not used up; it stops at the first
      that raises, is answered, fails otherwise, or finds its budget spent. */
  lemma {:induction false} FateMeans(cfg: Config, trials: seq<Trial>, cohort: nat, transport: nat)
    requires cohort <= cfg.cohortLimit && transport <= cfg.transportLimit
    requires |trials| > cfg.cohortLimit - cohort + cfg.transportLimit - transport
    ensures StopsAfter(cfg, trials, cohort, transport, FateOf(cfg, trials, cohort, transport).attempts)
    decreases |trials|
  {
    var n := FateOf(cfg, trials, cohort, transport).attempts;
    if n == 1 {
      assert trials[..0] == [];
    } else {
      hide StopsAfter;
      FateMeans(cfg, trials[1..], cohort + (if TrialKey(trials[0]) == 1 then 1 else 0),
        transport + if TrialKey(trials[0]) == 2 then 1 else 0);
      StopsLater(cfg, trials, cohort, transport, n);
    }
  }

  /** The trials still to come are enough for the retries a request between attempts has left. */
  ghost predicate Enough(cfg: Config, x: Task, trials: seq<Trial>, k: nat) {
    && x.phase.Loose? && x.cohortRetries <= cfg.cohortLimit && x.transportRetries <= cfg.transportLimit
    && x.attempts == k <= |trials|
    && (x.phase.reason == Fresh ==> k == x.cohortRetries + x.transportRetries)
    && (x.phase.reason != Fresh ==> k == x.cohortRetries + x.transportRetries + 1)
    && |trials| > cfg.cohortLimit + cfg.transportLimit
  }

  /** The retries used up once the next attempt starts. */
  function NextCohort(x: Task): nat { if x.phase == Loose(Stalled) then x.cohortRetries + 1 else x.cohortRetries }
  function NextTransport(x: Task): nat {
    if x.phase == Loose(Broken) then x.transportRetries + 1 else x.transportRetries
  }

  /** What is left of the fate of a request between attempts. */
  ghost function Rest(cfg: Config, x: Task, trials: seq<Trial>, k: nat, answered: bool): Fate
    requires Enough(cfg, x, trials, k)
  {
    if Retryable(cfg, x) then FateOf(cfg, trials[k..], NextCohort(x), NextTransport(x)) else Fate(answered, 0)
  }

  lemma RestUnfolds(cfg: Config, x: Task, trials: seq<Trial>, k: nat, answered: bool, z: Task)
    requires Enough(cfg, x, trials, k) && Retryable(cfg, x)
    requires k < |trials| && !trials[k].raises ==> z.phase == Loose(ReasonFor(trials[k].outcome)) && z.attempts == k + 1
    requires z.cohortRetries == NextCohort(x) && z.transportRetries == NextTransport(x)
    ensures k < |trials|
    ensures trials[k].raises ==> Rest(cfg, x, trials, k, answered) == Fate(false, 1)
    ensures !trials[k].raises ==>
      && Enough(cfg, z, trials, k + 1)
      && var rest := Rest(cfg, z, trials, k + 1, trials[k].outcome.Response?);
         Rest(cfg, x, trials, k, answered) == Fate(rest.answered, rest.attempts + 1)
  {
    assert trials[k..][0] == trials[k] && trials[k..][1..] == trials[k + 1..];
  }

  /** A request in the loop after `k` attempts, `fate` being what its outcomes make of it in all. */
  ghost predicate Ahead(cfg: Config, x: Task, trials: seq<Trial>, k: nat, answered: bool, fate: Fate) {
    && Enough(cfg, x, trials, k) && (answered ==> x.phase.reason == Ended)
    && var rest := Rest(cfg, x, trials, k, answered); fate == Fate(rest.answered, k + rest.attempts)
  }

  lemma RestSpent(cfg: Config, x: Task, trials: seq<Trial>, k: nat, answered: bool)
    requires Enough(cfg, x, trials, k) && !Retryable(cfg, x)
    ensures Rest(cfg, x, trials, k, answered) == Fate(answered, 0)
  {
  }

  /** A request between attempts, `x`, starts the next one or ends, as `y`. */
  predicate Started(cfg: Config, x: Task, y: Task, raises: bool)
    requires x.phase.Loose?
  {
    && (if Retryable(cfg, x) && !raises then y.phase.Attempting? else y.phase.Finished?)
    && Remaining(cfg, y) < Remaining(cfg, x) && 0 <= Remaining(cfg, x)
    && (Retryable(cfg, x) ==> y.cohortRetries == NextCohort(x) && y.transportRetries == NextTransport(x))
    && y.attempts == x.attempts + if Retryable(cfg, x) then 1 else 0
  }

  lemma StartFacts(cfg: Config, net: Net, t: nat, trial: Trial)
    requires Inv(cfg, net) && t < |net.tasks| && net.tasks[t].phase.Loose?
    ensures ClientsKnown(net)
    ensures var q := ShardPool.Proceed(cfg, net, t, trial.raises, trial.startedAt);
      Inv(cfg, q) && t < |q.tasks| && Started(cfg, net.tasks[t], q.tasks[t], trial.raises)
  {
    hide ShardPool.Proceed, TaskOk, Started, HoldersOk, ListsOk, ClosersOk, LogOk, TasksOk, NodesOk, PeakOk;
    ListsKnown(net);
    ProceedShape(cfg, net, t, trial.raises, trial.startedAt);
    ProceedOk(cfg, net, t, trial.raises, trial.startedAt);
    var q := ShardPool.Proceed(cfg, net, t, trial.raises, trial.startedAt);
    TaskAt(cfg, net.shards, net.tasks, t);
    TaskAt(cfg, q.shards, q.tasks, t);
    StartedFrom(cfg, net.shards, net.tasks[t], q.shards, q.tasks[t], trial.raises);
  }

  lemma ListsKnown(net: Net)
    requires ListsOk(net.shards, net.clients, net.closed, net.nextShardId)
    ensures ClientsKnown(net)
  {
  }

  lemma StartedFrom(cfg: Config, before: map<nat, Shard>, x: Task, after: map<nat, Shard>, y: Task, raises: bool)
    requires TaskOk(cfg, before, x) && TaskOk(cfg, after, y) && x.phase.Loose?
    requires if Retryable(cfg, x) && !raises then y.phase.Attempting? else y.phase.Finished?
    requires y.cohortRetries == x.cohortRetries
           + (if x.phase.reason == Stalled && x.cohortRetries < cfg.cohortLimit then 1 else 0)
    requires y.transportRetries == x.transportRetries
           + (if x.phase.reason == Broken && x.transportRetries < cfg.transportLimit then 1 else 0)
    ensures Started(cfg, x, y, raises)
  {
  }

  lemma FinishedResolved(cfg: Config, net: Net, t: nat)
    requires Inv(cfg, net) && t < |net.tasks| && net.tasks[t].phase.Finished?
    ensures net.tasks[t].resolutions == 1
  {
    TaskAt(cfg, net.shards, net.tasks, t);
  }

  lemma BegunTask(cfg: Config, net: Net, node: Option<nat>, trials: seq<Trial>)
    requires |trials| > cfg.cohortLimit + cfg.transportLimit
    ensures var q := Begin(net, node);
      && |q.tasks| == |net.tasks| + 1 && q.tasks[|net.tasks|].phase.Loose?
      && Ahead(cfg, q.tasks[|net.tasks|], trials, 0, false, FateOf(cfg, trials, 0, 0))
  {
    hide FateOf;
    assert trials[0..] == trials;
  }

  lemma HeldListed(cfg: Config, net: Net, t: nat)
    requires Inv(cfg, net) && t < |net.tasks| && net.tasks[t].phase.Attempting?
    ensures net.tasks[t].phase.shard in net.shards && HoldersOk(cfg, net.shards, net.tasks)
  {
    assert net.tasks[t].phase.shard in net.clients;
  }

  /** The shard's counters once an attempt's outcome is written on it, before its release. */
  function Counted(s: Shard, outcome: Outcome, now: int): Shard {
    Settle(s, outcome, now).(inFlight := s.inFlight)
  }

  lemma ReleaseSettles(s: Shard, outcome: Outcome, now: int)
    ensures var c := Counted(s, outcome, now);
      c.(inFlight := if c.inFlight > 0 then c.inFlight - 1 else 0) == Settle(s, outcome, now)
  {
  }

  lemma ResolveFrame(net: Net, t: nat, ok: bool)
    requires t < |net.tasks|
    ensures var q := Resolve(net, t, ok); q.shards == net.shards && |q.tasks| == |net.tasks|
  {
  }

  /** Telling the future before or after the release makes no difference. */
  lemma ResolveLater(net: Net, t: nat, ok: bool, phase: Phase, shards: map<nat, Shard>)
    requires t < |net.tasks|
    ensures var q := Resolve(net, t, ok).(shards := shards);
      t < |q.tasks| && SetTask(q, t, q.tasks[t].(phase := phase))
        == Resolve(SetTask(net, t, net.tasks[t].(phase := phase)).(shards := shards), t, ok)
  {
    var x := net.tasks[t];
    var y := x.(resolutions := x.resolutions + 1);
    var z := x.(phase := phase);
    var u := y.(phase := phase);
    assert net.tasks[t := y][t := u] == net.tasks[t := u] == net.tasks[t := z][t := u];
  }

  class NetworkManager {
    const cfg: Config
    var net: Net

    ghost predicate Valid()
      reads this
    {
      Inv(cfg, net)
    }

    constructor (cfg: Config)
      requires cfg.capacity >= 1
      ensures Valid() && this.cfg == cfg && net == EMPTY_NET
    {
      this.cfg, net := cfg, EMPTY_NET;
      new;
      EmptyOk(cfg);
    }

    /** Scans the listed shards from the rotation index on, then claims the choice. */
    method AcquireClient() returns (id: nat)
      requires ClientsKnown(net)
      modifies this`net
      ensures (net, id) == Acquire(cfg, old(net))
    {
      hide LiveFlight;
      var count := |net.clients|;
      var selected: Option<nat> := None;
      var offset := 0;
      while offset < count
        invariant 0 <= offset <= count
        invariant net == old(net)
        invariant selected == if count == 0 then None else BestOf(cfg, net, offset)
      {
        var index := (net.nextIndex + offset) % count;
        var candidate := net.shards[net.clients[index]];
        if !candidate.retiring && candidate.inFlight < cfg.capacity
           && (selected.None? || candidate.inFlight > net.shards[net.clients[selected.value]].inFlight)
        {
          selected := Some(index);
        }
        offset := offset + 1;
      }
      if selected.None? {
        id := net.nextShardId;
        net := net.(shards := net.shards[id := NEW_SHARD], clients := net.clients + [id], nextShardId := id + 1,
          nextIndex := 0);
        ghost var claimed := NEW_SHARD.(inFlight := 1, started := 1);
        assert net.shards[id := claimed] == old(net).shards[id := claimed];
      } else {
        id := net.clients[selected.value];
        net := net.(nextIndex := (selected.value + 1) % count);
      }
      ClaimShard(id);
    }

    method ClaimShard(id: nat)
      requires id in net.shards
      modifies this`net
      ensures var s := old(net).shards[id];
        var shards := old(net).shards[id := s.(inFlight := s.inFlight + 1, started := s.started + 1)];
        net == old(net).(shards := shards, peak := Max(old(net).peak, LiveFlight(shards, old(net).clients)))
    {
      var s := net.shards[id];
      net := net.(shards := net.shards[id := s.(inFlight := s.inFlight + 1, started := s.started + 1)]);
      net := net.(peak := Max(net.peak, LiveFlight(net.shards, net.clients)));
    }

    /** `_release_client` up to its await: whether the caller goes on to close the shard. */
    method ReleaseClient(id: nat) returns (close: bool)
      requires id in net.shards
      modifies this`net
      ensures var s := old(net).shards[id]; var left := if s.inFlight > 0 then s.inFlight - 1 else 0;
        net == old(net).(shards := old(net).shards[id := s.(inFlight := left)]) && close == (s.retiring && left == 0)
    {
      var s := net.shards[id];
      net := net.(shards := net.shards[id := s.(inFlight := if s.inFlight > 0 then s.inFlight - 1 else 0)]);
      close := net.shards[id].retiring && net.shards[id].inFlight == 0;
    }

    /** The top of the attempt loop, after what the previous attempt's end calls for. */
    method Proceed(t: nat, raises: bool, now: int)
      requires ClientsKnown(net) && t < |net.tasks| && net.tasks[t].phase.Loose?
      modifies this`net
      ensures net == ShardPool.Proceed(cfg, old(net), t, raises, now)
    {
      hide LiveFlight, Pick, Resolve;
      var task := net.tasks[t];
      if task.phase.reason == Ended {
        net := SetTask(net, t, task.(phase := Finished));
        return;
      }
      if (task.phase.reason == Stalled && task.cohortRetries >= cfg.cohortLimit)
         || (task.phase.reason == Broken && task.transportRetries >= cfg.transportLimit)
      {
        net := GiveUp(net, t);
        return;
      }
      if task.phase.reason == Stalled { task := task.(cohortRetries := task.cohortRetries + 1); }
      if task.phase.reason == Broken { task := task.(transportRetries := task.transportRetries + 1); }
      net := SetTask(net, t, task);
      assert task.phase.reason == Fresh ==> net == old(net);
      Attempt(t, raises, now);
    }

    method Attempt(t: nat, raises: bool, now: int)
      requires ClientsKnown(net) && t < |net.tasks|
      modifies this`net
      ensures net == ShardPool.Attempt(cfg, old(net), t, raises, now)
    {
      hide LiveFlight, Pick, Resolve;
      var task := net.tasks[t];
      task := task.(attempts := task.attempts + 1);
      if raises {
        net := Resolve(SetTask(net, t, task.(phase := Finished)), t, false);
        return;
      }
      var id := AcquireClient();
      var baseline := net.shards[id].completed + net.shards[id].failed;
      net := SetTask(net, t, task.(phase := Attempting(id, |net.log|, baseline, now), last := Some(id)));
    }

    /** The exception handlers and the `else` branch, with the release each of them leads to. */
    method EndAttempt(t: nat, outcome: Outcome, now: int)
      requires t < |net.tasks| && net.tasks[t].phase.Attempting? && net.tasks[t].phase.shard in net.shards
      modifies this`net
      ensures net == ShardPool.EndAttempt(old(net), t, outcome, now)
    {
      hide Resolve;
      var id := net.tasks[t].phase.shard;
      CountOutcome(id, outcome, now);
      if !outcome.Stall? { net := net.(log := net.log + [Terminal(id, t)]); }
      ghost var counted := net;
      if outcome.Response? || outcome.OtherError? { net := Resolve(net, t, outcome.Response?); }
      ResolveFrame(counted, t, outcome.Response?);
      var close := ReleaseClient(id);
      var phase := if close then Closing(id, ReasonFor(outcome)) else Loose(ReasonFor(outcome));
      ResolveLater(counted, t, outcome.Response?, phase, net.shards);
      net := SetTask(net, t, net.tasks[t].(phase := phase));
      ReleaseSettles(old(net).shards[id], outcome, now);
      var settled := Settle(old(net).shards[id], outcome, now);
      assert net.shards == old(net).shards[id := settled];
    }

    /** What a handler writes on the shard before releasing it. */
    method CountOutcome(id: nat, outcome: Outcome, now: int)
      requires id in net.shards
      modifies this`net
      ensures net == old(net).(shards := old(net).shards[id := Counted(old(net).shards[id], outcome, now)])
    {
      var s := net.shards[id];
      match outcome {
        case Stall =>
          s := s.(stalls := s.stalls + 1, retiring := true);
        case TransportError =>
          s := s.(retiring := true, failed := s.failed + 1, lastTerminal := now);
        case OtherError =>
          s := s.(failed := s.failed + 1, lastTerminal := now);
        case Response =>
          s := s.(completed := s.completed + 1, lastTerminal := now);
      }
      net := net.(shards := net.shards[id := s]);
    }

    /** Any segments of the other requests, and of this one's watch over its response, at an await. */
    method Await(t: nat)
      requires Valid() && t < |net.tasks|
      modifies this`net
      ensures Valid() && t < |net.tasks| && net.tasks[t] == old(net).tasks[t]
    {
      hide Inv;
      var steps: nat := *;
      while steps > 0
        invariant Valid() && t < |net.tasks| && net.tasks[t] == old(net).tasks[t]
      {
        var s: Step := *;
        if Enabled(net, s) && !Own(s, t) {
          StepUses(cfg, net, s, t);
          StepOk(cfg, net, s);
          net := Apply(cfg, net, s);
        }
        steps := steps - 1;
      }
    }

    /** `_execute`, for a request that was not cancelled before it ran: it finishes, its future resolved
        once, after exactly the attempts its own outcomes call for; `answered` when with a response. */
    method Execute(node: Option<nat>, trials: seq<Trial>) returns (t: nat, answered: bool)
      requires Valid() && |trials| > cfg.cohortLimit + cfg.transportLimit
      modifies this`net
      ensures Valid() && t == |old(net).tasks| < |net.tasks|
      ensures net.tasks[t].phase.Finished? && net.tasks[t].resolutions == 1
      ensures Fate(answered, net.tasks[t].attempts) == FateOf(cfg, trials, 0, 0)
    {
      t, answered := |net.tasks|, false;
      hide Inv, Begin, Remaining, FateOf, Ahead;
      BeginOk(cfg, net, node);
      BegunTask(cfg, net, node, trials);
      net := Begin(net, node);
      ghost var fate := FateOf(cfg, trials, 0, 0);
      var k := 0;
      while !net.tasks[t].phase.Finished?
        invariant Valid() && t < |net.tasks|
        invariant net.tasks[t].phase.Finished? ==> fate == Fate(answered, net.tasks[t].attempts)
        invariant !net.tasks[t].phase.Finished? ==> Ahead(cfg, net.tasks[t], trials, k, answered, fate)
        decreases Remaining(cfg, net.tasks[t])
      {
        answered := ExecuteAttempt(t, trials, k, answered, fate);
        k := k + 1;
      }
      FinishedResolved(cfg, net, t);
    }

    /** One turn of the retry loop. */
    method ExecuteAttempt(t: nat, trials: seq<Trial>, k: nat, before: bool, ghost fate: Fate) returns (answered: bool)
      requires Valid() && t < |net.tasks| && Ahead(cfg, net.tasks[t], trials, k, before, fate)
      modifies this`net
      ensures Valid() && t < |net.tasks|
      ensures 0 <= Remaining(cfg, old(net).tasks[t]) && Remaining(cfg, net.tasks[t]) < Remaining(cfg, old(net).tasks[t])
      ensures net.tasks[t].phase.Finished? ==> fate == Fate(answered, net.tasks[t].attempts)
      ensures !net.tasks[t].phase.Finished? ==> Ahead(cfg, net.tasks[t], trials, k + 1, answered, fate)
    {
      hide Inv, Rest, Settle;
      answered := before;
      ghost var x := net.tasks[t];
      var trial := if k < |trials| then trials[k] else Trial(true, 0, OtherError, 0);
      StartAttempt(t, trial);
      ghost var y := net.tasks[t];
      if net.tasks[t].phase.Attempting? {
        Await(t);
        FinishAttempt(t, trial);
        answered := trial.outcome.Response?;
        RestUnfolds(cfg, x, trials, k, before, net.tasks[t]);
      } else if Retryable(cfg, x) {
        RestUnfolds(cfg, x, trials, k, before, y.(phase := Loose(ReasonFor(trial.outcome)), attempts := k + 1));
      } else {
        assert Rest(cfg, x, trials, k, before) == Fate(before, 0) by { RestSpent(cfg, x, trials, k, before); }
      }
    }

    method StartAttempt(t: nat, trial: Trial)
      requires Valid() && t < |net.tasks| && net.tasks[t].phase.Loose?
      modifies this`net
      ensures Valid() && t < |net.tasks|
      ensures Started(cfg, old(net).tasks[t], net.tasks[t], trial.raises)
    {
      hide Inv, ShardPool.Proceed, Remaining;
      StartFacts(cfg, net, t, trial);
      Proceed(t, trial.raises, trial.startedAt);
    }

    method FinishAttempt(t: nat, trial: Trial)
      requires Valid() && t < |net.tasks| && net.tasks[t].phase.Attempting?
      modifies this`net
      ensures Valid() && t < |net.tasks|
      ensures var x, y := old(net).tasks[t], net.tasks[t];
        && y == x.(phase := Loose(ReasonFor(trial.outcome)), resolutions := y.resolutions)
        && Remaining(cfg, y) < Remaining(cfg, x)
    {
      hide Inv, ShardPool.EndAttempt, Settle, HoldersOk;
      HeldListed(cfg, net, t);
      EndShape(cfg, net, t, trial.outcome, trial.endedAt);
      EndAttemptOk(cfg, net, t, trial.outcome, trial.endedAt);
      EndAttempt(t, trial.outcome, trial.endedAt);
      if net.tasks[t].phase.Closing? {
        Await(t);
        EndCloseOk(cfg, net, t);
        net := EndClose(net, t);
      }
    }
  }
}
