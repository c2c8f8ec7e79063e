/**
 Every segment of every request keeps the shard pool's invariant, so it holds over whole runs; what the
 network manager promises follows.
 */
module ShardRuns {
  import opened Prelude
  import opened ShardPool
  import opened ShardInvariant

  // ---- a new attempt -------------------------------------------------------------------------

  /** Everything but the requests' own records. */
  ghost predicate PoolOk(cfg: Config, net: Net) {
    && HoldersOk(cfg, net.shards, net.tasks)
    && ListsOk(net.shards, net.clients, net.closed, net.nextShardId)
    && ClosersOk(net.shards, net.clients, net.tasks)
    && LogOk(net.shards, net.tasks, net.log)
    && NodesOk(net.nodes, net.tasks)
    && PeakOk(cfg, net.shards, net.clients, net.peak)
  }

  lemma RetryCounted(cfg: Config, net: Net, t: nat, x: Task)
    requires Inv(cfg, net) && t < |net.tasks| && net.tasks[t].phase.Loose?
    requires x == net.tasks[t].(cohortRetries := x.cohortRetries, transportRetries := x.transportRetries)
    ensures PoolOk(cfg, SetTask(net, t, x))
  {
    hide PeakOk, ListsOk, HoldersOk, ClosersOk, LogOk, NodesOk;
    IdleTask(cfg, net.shards, net.clients, net.tasks, net.log, t, x);
    NodesSame(net.nodes, net.tasks, t, x);
  }

  /** The new attempt's baseline counts the terminals its shard has seen. */
  lemma AttemptLog(cfg: Config, net: Net, t: nat, y: Task)
    requires t < |net.tasks| && ClientsKnown(net)
    requires ListsOk(net.shards, net.clients, net.closed, net.nextShardId)
    requires LogOk(net.shards, net.tasks, net.log)
    requires var (q, id) := Acquire(cfg, net);
      && id in q.shards && y.phase.Attempting? && y.phase.shard == id && y.phase.since == |net.log|
      && y.phase.baseline == q.shards[id].completed + q.shards[id].failed
    ensures var q := Acquire(cfg, net).0; LogOk(q.shards, net.tasks[t := y], q.log)
  {
    hide Acquire;
    var (q, id) := Acquire(cfg, net);
    AcquireFresh(cfg, net);
    AcquireCounts(cfg, net);
    assert net.log[..|net.log|] == net.log;
    if id !in net.shards && Tally(net.log, ShardKey, id) > 0 {
      var k := TallyWitness(net.log, ShardKey, id);
    }
    LogTask(q.shards, net.tasks, q.log, t, y);
  }

  /** A retired shard stays retired, and no request's record is disturbed, when another request claims. */
  lemma AttemptTasks(cfg: Config, net: Net, before: seq<Task>, t: nat, y: Task)
    requires t < |net.tasks| == |before| && ClientsKnown(net)
    requires forall k | 0 <= k < |before| && k != t :: net.tasks[k] == before[k]
    requires ListsOk(net.shards, net.clients, net.closed, net.nextShardId)
    requires TasksOk(cfg, net.shards, before)
    requires TaskOk(cfg, Acquire(cfg, net).0.shards, y)
    ensures TasksOk(cfg, Acquire(cfg, net).0.shards, net.tasks[t := y])
  {
    hide Acquire;
    var (q, id) := Acquire(cfg, net);
    AcquireFresh(cfg, net);
    var tasks := net.tasks[t := y];
    forall k | 0 <= k < |tasks| ensures TaskOk(cfg, q.shards, tasks[k]) {
      assert TaskOk(cfg, net.shards, before[k]);
    }
  }

  lemma ClaimOk(cfg: Config, net: Net, before: seq<Task>, t: nat, now: int)
    requires t < |net.tasks| == |before| && PoolOk(cfg, net) && TasksOk(cfg, net.shards, before)
    requires forall k | 0 <= k < |before| && k != t :: net.tasks[k] == before[k]
    requires net.tasks[t].phase.Loose? && net.tasks[t].resolutions == 0
    requires net.tasks[t].cohortRetries <= cfg.cohortLimit && net.tasks[t].transportRetries <= cfg.transportLimit
    requires net.tasks[t].attempts == net.tasks[t].cohortRetries + net.tasks[t].transportRetries
    ensures ClientsKnown(net) && Inv(cfg, Attempt(cfg, net, t, false, now))
  {
    hide Acquire, PeakOk, HoldersOk, ClosersOk, LogOk, NodesOk, TasksOk;
    var (q, id) := Acquire(cfg, net);
    AcquireFresh(cfg, net);
    AcquireCounts(cfg, net);
    var y := Attempt(cfg, net, t, false, now).tasks[t];
    AcquirePeak(cfg, net);
    AcquireLists(cfg, net);
    assert cfg.capacity >= 1 by { CapacityPositive(cfg, net); }
    AttemptHolders(cfg, net, t, y);
    AttemptLog(cfg, net, t, y);
    AttemptTasks(cfg, net, before, t, y);
    NodesSame(net.nodes, net.tasks, t, y);
  }

  lemma CapacityPositive(cfg: Config, net: Net)
    requires PeakOk(cfg, net.shards, net.clients, net.peak)
    ensures cfg.capacity >= 1
  {
  }

  lemma TryOk(cfg: Config, net: Net, t: nat, x: Task, raises: bool, now: int)
    requires Inv(cfg, net) && t < |net.tasks| && net.tasks[t].phase.Loose? && net.tasks[t].phase.reason != Ended
    requires x == net.tasks[t].(cohortRetries := x.cohortRetries, transportRetries := x.transportRetries)
    requires x.cohortRetries <= cfg.cohortLimit && x.transportRetries <= cfg.transportLimit
    requires x.attempts == x.cohortRetries + x.transportRetries
    ensures ClientsKnown(net) && Inv(cfg, Attempt(cfg, SetTask(net, t, x), t, raises, now))
  {
    hide Acquire, PeakOk, HoldersOk, ClosersOk, LogOk, NodesOk;
    var m := SetTask(net, t, x);
    if raises {
      var y := x.(phase := Finished, attempts := x.attempts + 1);
      assert SetTask(m, t, y) == SetTask(net, t, y) by { assert net.tasks[t := x][t := y] == net.tasks[t := y]; }
      FailOk(cfg, net, t, y);
    } else {
      RetryCounted(cfg, net, t, x);
      assert TaskOk(cfg, net.shards, net.tasks[t]);
      hide ListsOk, TasksOk;
      ClaimOk(cfg, m, net.tasks, t, now);
    }
  }

  lemma ProceedOk(cfg: Config, net: Net, t: nat, raises: bool, now: int)
    requires Inv(cfg, net) && Enabled(net, ProceedStep(t, raises, now))
    ensures Inv(cfg, Proceed(cfg, net, t, raises, now))
  {
    hide PeakOk, ListsOk, HoldersOk, ClosersOk, LogOk, NodesOk, Attempt;
    var task := net.tasks[t];
    assert TaskOk(cfg, net.shards, task);
    match task.phase.reason
    case Fresh =>
      assert SetTask(net, t, task) == net;
      TryOk(cfg, net, t, task, raises, now);
    case Ended => EndedOk(cfg, net, t);
    case Stalled =>
      if task.cohortRetries >= cfg.cohortLimit {
        FailOk(cfg, net, t, task.(phase := Finished));
      } else {
        TryOk(cfg, net, t, task.(cohortRetries := task.cohortRetries + 1), raises, now);
      }
    case Broken =>
      if task.transportRetries >= cfg.transportLimit {
        FailOk(cfg, net, t, task.(phase := Finished));
      } else {
        TryOk(cfg, net, t, task.(transportRetries := task.transportRetries + 1), raises, now);
      }
  }

  // ---- the end of an attempt -----------------------------------------------------------------

  /** Releasing takes exactly one holder off the shard; the clamp at zero never acts. */
  lemma EndShape(cfg: Config, net: Net, t: nat, outcome: Outcome, now: int)
    requires t < |net.tasks| && net.tasks[t].phase.Attempting? && net.tasks[t].phase.shard in net.shards
    requires HoldersOk(cfg, net.shards, net.tasks)
    ensures var task := net.tasks[t]; var id := task.phase.shard; var q := EndAttempt(net, t, outcome, now);
      && net.shards[id].inFlight >= 1
      && q.shards == net.shards[id := Settle(net.shards[id], outcome, now)]
      && q.shards[id].inFlight == net.shards[id].inFlight - 1
      && q.log == (if outcome.Stall? then net.log else net.log + [Terminal(id, t)])
      && q.tasks == net.tasks[t := q.tasks[t]]
      && q.tasks[t] == task.(phase := q.tasks[t].phase, resolutions := q.tasks[t].resolutions)
      && q.tasks[t].resolutions == task.resolutions + (if outcome.Response? || outcome.OtherError? then 1 else 0)
      && q.tasks[t].phase == (if q.shards[id].retiring && q.shards[id].inFlight == 0
                              then Closing(id, ReasonFor(outcome)) else Loose(ReasonFor(outcome)))
      && q.clients == net.clients && q.closed == net.closed && q.nextShardId == net.nextShardId && q.peak == net.peak
  {
    TallyPositive(net.tasks, t, HolderKey, net.tasks[t].phase.shard);
    assert ShardOk(cfg, net.shards[net.tasks[t].phase.shard], Tally(net.tasks, HolderKey, net.tasks[t].phase.shard));
  }

  lemma EndHolders(cfg: Config, shards: map<nat, Shard>, tasks: seq<Task>, id: nat, t: nat, outcome: Outcome,
      now: int, y: Task)
    requires t < |tasks| && id in shards && HoldersOk(cfg, shards, tasks)
    requires tasks[t].phase.Attempting? && tasks[t].phase.shard == id && !y.phase.Attempting?
    ensures HoldersOk(cfg, shards[id := Settle(shards[id], outcome, now)], tasks[t := y])
  {
    TaskTallies(tasks, t, y, HolderKey);
    TallyPositive(tasks, t, HolderKey, id);
    var shards' := shards[id := Settle(shards[id], outcome, now)];
    forall c | c in shards' ensures ShardOk(cfg, shards'[c], Tally(tasks[t := y], HolderKey, c)) {
      assert ShardOk(cfg, shards[c], Tally(tasks, HolderKey, c));
    }
  }

  /** The holder who leaves a retiring shard empty, and nobody else, becomes its closer. */
  lemma EndClosers(shards: map<nat, Shard>, clients: seq<nat>, tasks: seq<Task>, id: nat, t: nat, s: Shard, y: Task)
    requires t < |tasks| && id in shards && ClosersOk(shards, clients, tasks)
    requires tasks[t].phase.Attempting? && tasks[t].phase.shard == id && shards[id].inFlight >= 1
    requires if s.retiring && s.inFlight == 0 then y.phase.Closing? && y.phase.shard == id else y.phase.Loose?
    ensures ClosersOk(shards[id := s], clients, tasks[t := y])
  {
    TaskTallies(tasks, t, y, CloserKey);
  }

  lemma EndLog(shards: map<nat, Shard>, tasks: seq<Task>, log: seq<Terminal>, id: nat, t: nat, s: Shard, y: Task)
    requires t < |tasks| && id in shards && LogOk(shards, tasks, log) && !y.phase.Attempting?
    requires s.completed + s.failed == shards[id].completed + shards[id].failed + 1
    ensures LogOk(shards[id := s], tasks[t := y], log + [Terminal(id, t)])
  {
    var tasks', log' := tasks[t := y], log + [Terminal(id, t)];
    forall c ensures Tally(log', ShardKey, c) == Tally(log, ShardKey, c) + if c == id then 1 else 0 {
      TallyAppend(log, Terminal(id, t), ShardKey, c);
    }
    forall k | 0 <= k < |tasks'| ensures AttemptOk(tasks', log', k) {
      assert AttemptOk(tasks, log, k);
      if tasks'[k].phase.Attempting? { assert log'[..tasks'[k].phase.since] == log[..tasks'[k].phase.since]; }
    }
  }

  lemma EndStallLog(shards: map<nat, Shard>, tasks: seq<Task>, log: seq<Terminal>, id: nat, t: nat, s: Shard, y: Task)
    requires t < |tasks| && id in shards && LogOk(shards, tasks, log) && !y.phase.Attempting?
    requires s.completed + s.failed == shards[id].completed + shards[id].failed
    ensures LogOk(shards[id := s], tasks[t := y], log)
  {
    LogTask(shards, tasks, log, t, y);
  }

  /** Retiring is never taken back, so what other requests know of retired shards stays true. */
  lemma TasksRetired(cfg: Config, shards: map<nat, Shard>, tasks: seq<Task>, id: nat, s: Shard, t: nat, y: Task)
    requires t < |tasks| && id in shards && (shards[id].retiring ==> s.retiring)
    requires TasksOk(cfg, shards, tasks) && TaskOk(cfg, shards[id := s], y)
    ensures TasksOk(cfg, shards[id := s], tasks[t := y])
  {
    forall k | 0 <= k < |tasks| && k != t ensures TaskOk(cfg, shards[id := s], tasks[k]) {
      assert TaskOk(cfg, shards, tasks[k]);
    }
  }

  lemma EndTask(cfg: Config, shards: map<nat, Shard>, task: Task, outcome: Outcome, now: int, y: Task)
    requires TaskOk(cfg, shards, task) && task.phase.Attempting? && task.phase.shard in shards
    requires y == task.(phase := y.phase, resolutions := y.resolutions)
    requires y.resolutions == task.resolutions + (if outcome.Response? || outcome.OtherError? then 1 else 0)
    requires var s := Settle(shards[task.phase.shard], outcome, now);
      y.phase == if s.retiring && s.inFlight == 0 then Closing(task.phase.shard, ReasonFor(outcome))
        else Loose(ReasonFor(outcome))
    ensures TaskOk(cfg, shards[task.phase.shard := Settle(shards[task.phase.shard], outcome, now)], y)
  {
  }

  lemma EndNodes(cfg: Config, net: Net, t: nat, outcome: Outcome, now: int)
    requires t < |net.tasks| && net.tasks[t].phase.Attempting? && net.tasks[t].phase.shard in net.shards
    requires NodesOk(net.nodes, net.tasks) && net.tasks[t].resolutions == 0
    ensures var q := EndAttempt(net, t, outcome, now); NodesOk(q.nodes, q.tasks)
  {
    var id := net.tasks[t].phase.shard;
    var shard := Settle(net.shards[id], outcome, now);
    var reason := ReasonFor(outcome);
    var phase := if shard.retiring && shard.inFlight == 0 then Closing(id, reason) else Loose(reason);
    var y := net.tasks[t].(phase := phase);
    hide NodesOk;
    NodesSame(net.nodes, net.tasks, t, y);
    var q := SetTask(net, t, y).(
      shards := net.shards[id := shard],
      log := if outcome.Stall? then net.log else net.log + [Terminal(id, t)]);
    NodesResolve(q, t, outcome.Response?);
  }

  lemma EndAttemptOk(cfg: Config, net: Net, t: nat, outcome: Outcome, now: int)
    requires Inv(cfg, net) && t < |net.tasks| && net.tasks[t].phase.Attempting?
      && net.tasks[t].phase.shard in net.shards
    ensures Inv(cfg, EndAttempt(net, t, outcome, now))
  {
    hide HoldersOk, ListsOk, ClosersOk, LogOk, TasksOk, NodesOk, PeakOk, EndAttempt;
    EndShape(cfg, net, t, outcome, now);
    var q := EndAttempt(net, t, outcome, now);
    var id := net.tasks[t].phase.shard;
    var s, y := Settle(net.shards[id], outcome, now), q.tasks[t];
    assert TaskOk(cfg, net.shards, net.tasks[t]) by { TaskAt(cfg, net.shards, net.tasks, t); }
    EndHolders(cfg, net.shards, net.tasks, id, t, outcome, now, y);
    EndClosers(net.shards, net.clients, net.tasks, id, t, s, y);
    if outcome.Stall? {
      EndStallLog(net.shards, net.tasks, net.log, id, t, s, y);
    } else {
      EndLog(net.shards, net.tasks, net.log, id, t, s, y);
    }
    EndTask(cfg, net.shards, net.tasks[t], outcome, now, y);
    TasksRetired(cfg, net.shards, net.tasks, id, s, t, y);
    EndNodes(cfg, net, t, outcome, now);
    ListsChange(net.shards, net.clients, net.closed, net.nextShardId, id, s);
    PeakChange(cfg, net.shards, net.clients, net.peak, id, s);
  }

  lemma TaskAt(cfg: Config, shards: map<nat, Shard>, tasks: seq<Task>, t: nat)
    requires TasksOk(cfg, shards, tasks) && t < |tasks|
    ensures TaskOk(cfg, shards, tasks[t])
  {
  }

  lemma ListsChange(shards: map<nat, Shard>, clients: seq<nat>, closed: seq<nat>, nextShardId: nat, id: nat, s: Shard)
    requires ListsOk(shards, clients, closed, nextShardId) && id in shards && shards[id].inFlight >= 1
    ensures ListsOk(shards[id := s], clients, closed, nextShardId)
  {
  }

  lemma PeakChange(cfg: Config, shards: map<nat, Shard>, clients: seq<nat>, peak: nat, id: nat, s: Shard)
    requires PeakOk(cfg, shards, clients, peak) && id in shards && (shards[id].retiring ==> s.retiring)
    ensures PeakOk(cfg, shards[id := s], clients, peak)
  {
    LiveChange(shards, clients, id, s);
  }

  // ---- closing a shard -----------------------------------------------------------------------

  lemma {:induction false} WithoutSpec(s: seq<nat>, id: nat)
    requires Distinct(s)
    ensures Distinct(Without(s, id)) && forall c :: c in Without(s, id) <==> c in s && c != id
  {
    if s != [] {
      assert s == [s[0]] + s[1..];
      if s[0] == id {
        assert id !in s[1..];
      } else {
        WithoutSpec(s[1..], id);
        var rest := Without(s[1..], id);
        assert Without(s, id) == [s[0]] + rest;
        assert s[0] !in s[1..];
      }
    }
  }

  lemma CloseLists(shards: map<nat, Shard>, clients: seq<nat>, closed: seq<nat>, nextShardId: nat, id: nat)
    requires ListsOk(shards, clients, closed, nextShardId)
    requires id in clients && shards[id].retiring && shards[id].inFlight == 0
    ensures ListsOk(shards, Without(clients, id), closed + [id], nextShardId)
  {
    WithoutSpec(clients, id);
    var closed' := closed + [id];
    assert forall c :: c in closed' <==> c in closed || c == id;
  }

  lemma CloseClosers(cfg: Config, shards: map<nat, Shard>, clients: seq<nat>, tasks: seq<Task>, t: nat, id: nat,
      y: Task)
    requires t < |tasks| && ClosersOk(shards, clients, tasks) && HoldersOk(cfg, shards, tasks) && Distinct(clients)
      && id in shards
    requires tasks[t].phase.Closing? && tasks[t].phase.shard == id && y.phase.Loose?
    ensures shards[id].retiring && shards[id].inFlight == 0 && id in clients
    ensures ClosersOk(shards, Without(clients, id), tasks[t := y])
  {
    WithoutSpec(clients, id);
    TallyPositive(tasks, t, CloserKey, id);
    TaskTallies(tasks, t, y, CloserKey);
    assert ShardOk(cfg, shards[id], Tally(tasks, HolderKey, id));
    var tasks' := tasks[t := y];
    forall k | 0 <= k < |tasks'| && (tasks'[k].phase.Attempting? || tasks'[k].phase.Closing?)
      ensures tasks'[k].phase.shard != id
    {
      if tasks'[k].phase.shard == id {
        if tasks'[k].phase.Attempting? { TallyPositive(tasks, k, HolderKey, id); }
        else { TallyPositive(tasks', k, CloserKey, id); }
      }
    }
  }

  lemma HoldersIdle(cfg: Config, shards: map<nat, Shard>, tasks: seq<Task>, log: seq<Terminal>, t: nat, y: Task)
    requires t < |tasks| && HoldersOk(cfg, shards, tasks) && LogOk(shards, tasks, log)
    requires !tasks[t].phase.Attempting? && !y.phase.Attempting?
    ensures HoldersOk(cfg, shards, tasks[t := y]) && LogOk(shards, tasks[t := y], log)
  {
    TaskTallies(tasks, t, y, HolderKey);
    LogTask(shards, tasks, log, t, y);
  }

  lemma TasksSame(cfg: Config, shards: map<nat, Shard>, tasks: seq<Task>, t: nat, y: Task)
    requires t < |tasks| && TasksOk(cfg, shards, tasks) && TaskOk(cfg, shards, y)
    ensures TasksOk(cfg, shards, tasks[t := y])
  {
  }

  lemma EndCloseOk(cfg: Config, net: Net, t: nat)
    requires Inv(cfg, net) && Enabled(net, CloseStep(t))
    ensures Inv(cfg, EndClose(net, t))
  {
    hide HoldersOk, LogOk, TasksOk, NodesOk;
    var id, y := net.tasks[t].phase.shard, net.tasks[t].(phase := Loose(net.tasks[t].phase.reason));
    assert id in net.clients && id in net.shards && Distinct(net.clients);
    hide ListsOk, ClosersOk;
    TaskAt(cfg, net.shards, net.tasks, t);
    CloseClosers(cfg, net.shards, net.clients, net.tasks, t, id, y);
    CloseLists(net.shards, net.clients, net.closed, net.nextShardId, id);
    HoldersIdle(cfg, net.shards, net.tasks, net.log, t, y);
    TasksSame(cfg, net.shards, net.tasks, t, y);
    NodesSame(net.nodes, net.tasks, t, y);
    LiveWithout(net.shards, net.clients, id);
  }

  // ---- a shard retires under its holders -----------------------------------------------------

  lemma RetireCounts(cfg: Config, shards: map<nat, Shard>, clients: seq<nat>, tasks: seq<Task>, log: seq<Terminal>,
      id: nat)
    requires id in shards && shards[id].inFlight >= 1
    requires HoldersOk(cfg, shards, tasks) && ClosersOk(shards, clients, tasks) && LogOk(shards, tasks, log)
    ensures var shards' := shards[id := shards[id].(retiring := true)];
      HoldersOk(cfg, shards', tasks) && ClosersOk(shards', clients, tasks) && LogOk(shards', tasks, log)
  {
    var shards' := shards[id := shards[id].(retiring := true)];
    forall c | c in shards' ensures ShardOk(cfg, shards'[c], Tally(tasks, HolderKey, c)) {
      assert ShardOk(cfg, shards[c], Tally(tasks, HolderKey, c));
    }
  }

  lemma RetireOk(cfg: Config, net: Net, t: nat)
    requires Inv(cfg, net) && t < |net.tasks| && net.tasks[t].phase.Attempting?
      && net.tasks[t].phase.shard in net.shards
    ensures Inv(cfg, Retire(net, t))
  {
    hide HoldersOk, ListsOk, ClosersOk, LogOk, TasksOk, NodesOk, PeakOk;
    var id := net.tasks[t].phase.shard;
    var s := net.shards[id].(retiring := true);
    EndShape(cfg, net, t, Response, 0);
    RetireCounts(cfg, net.shards, net.clients, net.tasks, net.log, id);
    ListsChange(net.shards, net.clients, net.closed, net.nextShardId, id, s);
    PeakChange(cfg, net.shards, net.clients, net.peak, id, s);
    TaskAt(cfg, net.shards, net.tasks, t);
    assert TaskOk(cfg, net.shards[id := s], net.tasks[t]);
    TasksRetired(cfg, net.shards, net.tasks, id, s, t, net.tasks[t]);
    assert net.tasks[t := net.tasks[t]] == net.tasks;
  }

  // ---- whole runs ----------------------------------------------------------------------------

  lemma StepOk(cfg: Config, net: Net, s: Step)
    requires Inv(cfg, net) && Enabled(net, s)
    ensures Inv(cfg, Apply(cfg, net, s))
  {
    hide Inv, Begin, Proceed, EndAttempt, EndClose, Retire;
    match s
    case BeginStep(node) => BeginOk(cfg, net, node);
    case ProceedStep(t, raises, now) => ProceedOk(cfg, net, t, raises, now);
    case EndStep(t, outcome, now) => EndAttemptOk(cfg, net, t, outcome, now);
    case CloseStep(t) => EndCloseOk(cfg, net, t);
    case RetireStep(t) => RetireOk(cfg, net, t);
  }

  ghost predicate Possible(cfg: Config, net: Net, run: seq<Step>)
    decreases |run|
  {
    run == [] || (Enabled(net, run[0]) && Possible(cfg, Apply(cfg, net, run[0]), run[1..]))
  }

  ghost function After(cfg: Config, net: Net, run: seq<Step>): Net
    requires Possible(cfg, net, run)
    decreases |run|
  {
    if run == [] then net else After(cfg, Apply(cfg, net, run[0]), run[1..])
  }

  lemma {:induction false} RunOk(cfg: Config, net: Net, run: seq<Step>)
    requires Inv(cfg, net) && Possible(cfg, net, run)
    ensures Inv(cfg, After(cfg, net, run))
    decreases |run|
  {
    hide Inv, Apply, Enabled;
    if run != [] {
      StepOk(cfg, net, run[0]);
      RunOk(cfg, Apply(cfg, net, run[0]), run[1..]);
    }
  }

  /** Reachable from a manager that has just started. */
  ghost predicate Reached(cfg: Config, run: seq<Step>, net: Net) {
    cfg.capacity >= 1 && Possible(cfg, EMPTY_NET, run) && net == After(cfg, EMPTY_NET, run)
  }

  lemma ReachedOk(cfg: Config, run: seq<Step>, net: Net)
    requires Reached(cfg, run, net)
    ensures Inv(cfg, net)
  {
    EmptyOk(cfg);
    RunOk(cfg, EMPTY_NET, run);
  }
}
