/**
 What holds of the shard pool at every await point: holders are counted exactly and within capacity,
 a retired shard is closed once by whoever leaves it last, every request keeps its retry budget and is
 resolved once, and the population of shards never outgrows the work they carried at its peak.
 */
module ShardInvariant {
  import opened Prelude
  import opened ShardPool

  // ---- the invariant -------------------------------------------------------------------------

  function HolderKey(t: Task): int { if t.phase.Attempting? then t.phase.shard else -1 }
  function CloserKey(t: Task): int { if t.phase.Closing? then t.phase.shard else -1 }
  function NodeKey(t: Task): int { if t.node.Some? && t.resolutions == 0 then t.node.value else -1 }

  ghost predicate ShardOk(cfg: Config, s: Shard, holders: nat) {
    s.inFlight == holders <= cfg.capacity && s.started == s.completed + s.failed + s.stalls + s.inFlight
  }

  /** `in_flight` is the number of holders, within capacity, and every started attempt is accounted for. */
  ghost predicate HoldersOk(cfg: Config, shards: map<nat, Shard>, tasks: seq<Task>) {
    forall id | id in shards :: ShardOk(cfg, shards[id], Tally(tasks, HolderKey, id))
  }

  predicate Distinct(s: seq<nat>) {
    forall a, b | 0 <= a < b < |s| :: s[a] != s[b]
  }

  /** Every shard is either listed or closed, closed ones had retired and stood empty. */
  ghost predicate ListsOk(shards: map<nat, Shard>, clients: seq<nat>, closed: seq<nat>, nextShardId: nat) {
    && Distinct(clients) && Distinct(closed)
    && (forall id | id in shards :: id < nextShardId && (id in clients <==> id !in closed))
    && (forall id | id in clients :: id in shards)
    && (forall id | id in closed :: id in shards && shards[id].retiring && shards[id].inFlight == 0)
  }

  /** A listed shard that has retired and stands empty is being closed by exactly one request. */
  ghost predicate ClosersOk(shards: map<nat, Shard>, clients: seq<nat>, tasks: seq<Task>) {
    && (forall id | id in shards ::
          Tally(tasks, CloserKey, id) == if shards[id].retiring && shards[id].inFlight == 0 && id in clients then 1
            else 0)
    && (forall t | 0 <= t < |tasks| && (tasks[t].phase.Attempting? || tasks[t].phase.Closing?) ::
       tasks[t].phase.shard in clients)
  }

  function ShardKey(e: Terminal): int { e.shard }

  /** The shard's terminal counters count its terminals; an attempt's baseline counts those before it, and
      none since is its own. */
  ghost predicate AttemptOk(tasks: seq<Task>, log: seq<Terminal>, t: nat)
    requires t < |tasks|
  {
    tasks[t].phase.Attempting? ==>
      && tasks[t].phase.since <= |log|
      && tasks[t].phase.baseline == Tally(log[..tasks[t].phase.since], ShardKey, tasks[t].phase.shard)
      && forall k | tasks[t].phase.since <= k < |log| :: log[k].task != t
  }

  ghost predicate LogOk(shards: map<nat, Shard>, tasks: seq<Task>, log: seq<Terminal>) {
    && (forall id | id in shards :: shards[id].completed + shards[id].failed == Tally(log, ShardKey, id))
    && (forall t | 0 <= t < |tasks| :: AttemptOk(tasks, log, t))
    && (forall k | 0 <= k < |log| :: log[k].shard in shards && log[k].task < |tasks|)
  }

  /** Attempts, retries and resolutions of one request. */
  ghost predicate TaskOk(cfg: Config, shards: map<nat, Shard>, t: Task) {
    && t.cohortRetries <= cfg.cohortLimit && t.transportRetries <= cfg.transportLimit
    && t.attempts == t.cohortRetries + t.transportRetries + (if t.phase == Loose(Fresh) then 0 else 1)
    && (t.phase == Loose(Fresh) ==> t.cohortRetries == t.transportRetries == 0 && t.last.None?)
    && t.resolutions == (if Resolved(t.phase) then 1 else 0)
    && (t.phase.Loose? && t.phase.reason in {Stalled, Broken} ==>
          t.last.Some? && t.last.value in shards && shards[t.last.value].retiring)
    && (t.phase.Attempting? ==> t.last == Some(t.phase.shard))
    && (t.phase.Closing? ==> t.last == Some(t.phase.shard) && t.phase.shard in shards && shards[t.phase.shard].retiring)
    && (t.phase.Closing? ==> t.phase.reason != Fresh)
  }

  predicate Resolved(phase: Phase) {
    phase.Finished? || phase == Loose(Ended) || (phase.Closing? && phase.reason == Ended)
  }

  ghost predicate TasksOk(cfg: Config, shards: map<nat, Shard>, tasks: seq<Task>) {
    forall t | 0 <= t < |tasks| :: TaskOk(cfg, shards, tasks[t])
  }

  ghost predicate NodesOk(nodes: map<nat, Counter>, tasks: seq<Task>) {
    && (forall n | n in nodes ::
          nodes[n].dispatched == nodes[n].completed + nodes[n].failed + nodes[n].inFlight
          && nodes[n].inFlight == Tally(tasks, NodeKey, n))
    && (forall n: nat | n !in nodes :: Tally(tasks, NodeKey, n) == 0)
  }

  /** Rounded up. */
  function Ceil(a: nat, b: nat): nat
    requires b > 0
  {
    (a + b - 1) / b
  }

  ghost predicate PeakOk(cfg: Config, shards: map<nat, Shard>, clients: seq<nat>, peak: nat) {
    cfg.capacity >= 1 && LiveShards(shards, clients) <= Ceil(peak, cfg.capacity)
  }

  ghost predicate Inv(cfg: Config, net: Net) {
    && HoldersOk(cfg, net.shards, net.tasks)
    && ListsOk(net.shards, net.clients, net.closed, net.nextShardId)
    && ClosersOk(net.shards, net.clients, net.tasks)
    && LogOk(net.shards, net.tasks, net.log)
    && TasksOk(cfg, net.shards, net.tasks)
    && NodesOk(net.nodes, net.tasks)
    && PeakOk(cfg, net.shards, net.clients, net.peak)
  }

  lemma EmptyOk(cfg: Config)
    requires cfg.capacity >= 1
    ensures Inv(cfg, EMPTY_NET)
  {
  }

  // ---- population ----------------------------------------------------------------------------

  lemma {:induction false} LiveAppend(shards: map<nat, Shard>, clients: seq<nat>, id: nat)
    ensures LiveShards(shards, clients + [id]) == LiveShards(shards, clients) + LiveShards(shards, [id])
    ensures LiveFlight(shards, clients + [id]) == LiveFlight(shards, clients) + LiveFlight(shards, [id])
  {
    if clients == [] {
      assert clients + [id] == [id];
    } else {
      assert (clients + [id])[1..] == clients[1..] + [id];
      LiveAppend(shards, clients[1..], id);
    }
  }

  /** A shard that is not listed does not count. */
  lemma {:induction false} LiveFrame(shards: map<nat, Shard>, clients: seq<nat>, id: nat, x: Shard)
    requires id !in clients
    ensures LiveShards(shards[id := x], clients) == LiveShards(shards, clients)
    ensures LiveFlight(shards[id := x], clients) == LiveFlight(shards, clients)
  {
    if clients != [] {
      assert clients[0] in clients && forall c | c in clients[1..] :: c in clients;
      LiveFrame(shards, clients[1..], id, x);
    }
  }

  /** Changing a shard without making a retired one live again adds no live shard. */
  lemma {:induction false} LiveChange(shards: map<nat, Shard>, clients: seq<nat>, id: nat, x: Shard)
    requires id in shards && (shards[id].retiring ==> x.retiring)
    ensures LiveShards(shards[id := x], clients) <= LiveShards(shards, clients)
  {
    if clients != [] { LiveChange(shards, clients[1..], id, x); }
  }

  lemma {:induction false} LiveWithout(shards: map<nat, Shard>, clients: seq<nat>, id: nat)
    ensures LiveShards(shards, Without(clients, id)) <= LiveShards(shards, clients)
  {
    if clients != [] && clients[0] != id { LiveWithout(shards, clients[1..], id); }
  }

  /** When no listed shard is eligible, the live ones are all full. */
  lemma {:induction false} AllFull(cfg: Config, shards: map<nat, Shard>, clients: seq<nat>)
    requires forall id | id in clients :: id in shards && (shards[id].retiring || shards[id].inFlight == cfg.capacity)
    ensures LiveFlight(shards, clients) == cfg.capacity * LiveShards(shards, clients)
  {
    if clients != [] {
      assert clients[0] in clients && forall c | c in clients[1..] :: c in clients;
      AllFull(cfg, shards, clients[1..]);
    }
  }

  lemma CeilMonotone(a: nat, b: nat, c: nat)
    requires a <= b && c > 0
    ensures Ceil(a, c) <= Ceil(b, c)
  {
    var q, r := (a + c - 1) / c, (b + c - 1) / c;
    assert c * q <= a + c - 1 && b + c - 1 < c * r + c;
    if q >= r + 1 { MulLeft(c, r + 1, q); }
  }

  lemma CeilPlusOne(k: nat, c: nat)
    requires c > 0
    ensures Ceil(c * k + 1, c) == k + 1
  {
    assert c * k + 1 + c - 1 == c * (k + 1);
    DivModUnique(c * (k + 1), c, k + 1, 0);
  }

  // ---- choosing ------------------------------------------------------------------------------

  /** Among the first `count` in rotation order, the `k`-th is the busiest eligible shard, and the first such. */
  ghost predicate Busiest(cfg: Config, net: Net, count: nat, k: nat)
    requires ClientsKnown(net) && net.clients != []
  {
    k < count && Eligible(cfg, net, net.clients[Rotated(net, k)])
    && forall j | 0 <= j < count && Eligible(cfg, net, net.clients[Rotated(net, j)]) ::
         var load, best := net.shards[net.clients[Rotated(net, j)]].inFlight,
           net.shards[net.clients[Rotated(net, k)]].inFlight;
         load <= best && (j < k ==> load < best)
  }

  /** The chosen shard is the busiest eligible one, first in rotation order; none is chosen exactly when
      none is eligible. */
  lemma {:induction false} BestOfSpec(cfg: Config, net: Net, count: nat)
    requires ClientsKnown(net) && net.clients != [] && count <= |net.clients|
    ensures var best := BestOf(cfg, net, count);
      && (best.None? ==> forall k | 0 <= k < count :: !Eligible(cfg, net, net.clients[Rotated(net, k)]))
      && (best.Some? ==> exists k :: Busiest(cfg, net, count, k) && best.value == Rotated(net, k))
  {
    hide Rotated;
    if count > 0 {
      BestOfSpec(cfg, net, count - 1);
      var best, previous := BestOf(cfg, net, count), BestOf(cfg, net, count - 1);
      if best.Some? {
        if best == previous {
          var k :| Busiest(cfg, net, count - 1, k) && best.value == Rotated(net, k);
          assert Busiest(cfg, net, count, k);
        } else {
          assert Busiest(cfg, net, count, count - 1);
        }
      }
    }
  }

  /** Rotation visits every listed shard. */
  lemma RotationCovers(net: Net, index: nat) returns (offset: nat)
    requires index < |net.clients|
    ensures offset < |net.clients| && Rotated(net, offset) == index
  {
    var n := |net.clients|;
    var start, rounds := net.nextIndex % n, net.nextIndex / n;
    offset := if index >= start then index - start else index - start + n;
    var wraps := if index >= start then rounds else rounds + 1;
    assert net.nextIndex + offset == n * wraps + index;
    DivModUnique(net.nextIndex + offset, n, wraps, index);
  }

  lemma PickNone(cfg: Config, net: Net)
    requires ClientsKnown(net) && Pick(cfg, net).None?
    ensures forall id | id in net.clients :: !Eligible(cfg, net, id)
  {
    if net.clients != [] {
      BestOfSpec(cfg, net, |net.clients|);
      forall id | id in net.clients ensures !Eligible(cfg, net, id) {
        var index :| 0 <= index < |net.clients| && net.clients[index] == id;
        var offset := RotationCovers(net, index);
      }
    }
  }

  // ---- changing one task ---------------------------------------------------------------------

  /** Replacing one task moves it from its old key to its new one. */
  lemma TaskTallies(tasks: seq<Task>, t: nat, y: Task, key: Task -> int)
    requires t < |tasks|
    ensures forall i :: Tally(tasks[t := y], key, i)
                     == Tally(tasks, key, i) + (if key(y) == i then 1 else 0) - if key(tasks[t]) == i then 1 else 0
  {
    forall i ensures Tally(tasks[t := y], key, i)
                  == Tally(tasks, key, i) + (if key(y) == i then 1 else 0) - if key(tasks[t]) == i then 1 else 0 {
      TallyUpdate(tasks, t, y, key, i);
    }
  }

  lemma TaskAppends(tasks: seq<Task>, y: Task, key: Task -> int)
    ensures forall i :: Tally(tasks + [y], key, i) == Tally(tasks, key, i) + if key(y) == i then 1 else 0
  {
    forall i ensures Tally(tasks + [y], key, i) == Tally(tasks, key, i) + if key(y) == i then 1 else 0 {
      TallyAppend(tasks, y, key, i);
    }
  }

  /** No request holds or closes a shard that does not exist yet. */
  lemma NobodyOn(shards: map<nat, Shard>, clients: seq<nat>, tasks: seq<Task>, id: nat)
    requires ClosersOk(shards, clients, tasks) && id !in clients
    ensures Tally(tasks, HolderKey, id) == 0 && Tally(tasks, CloserKey, id) == 0
  {
    if Tally(tasks, HolderKey, id) > 0 { var t := TallyWitness(tasks, HolderKey, id); }
    if Tally(tasks, CloserKey, id) > 0 { var t := TallyWitness(tasks, CloserKey, id); }
  }

  lemma LogTask(shards: map<nat, Shard>, tasks: seq<Task>, log: seq<Terminal>, t: nat, y: Task)
    requires t < |tasks| && LogOk(shards, tasks, log)
    requires AttemptOk(tasks[t := y], log, t)
    ensures LogOk(shards, tasks[t := y], log)
  {
    var tasks' := tasks[t := y];
    forall k | 0 <= k < |tasks'| ensures AttemptOk(tasks', log, k) {
      assert AttemptOk(tasks, log, k);
    }
  }

  // ---- each piece keeps the invariant --------------------------------------------------------

  predicate Idle(phase: Phase) {
    phase.Loose? || phase.Finished?
  }

  /** A request that neither holds nor closes a shard can change to another such state unseen. */
  lemma IdleTask(cfg: Config, shards: map<nat, Shard>, clients: seq<nat>, tasks: seq<Task>, log: seq<Terminal>,
      t: nat, y: Task)
    requires t < |tasks| && Idle(tasks[t].phase) && Idle(y.phase)
    requires HoldersOk(cfg, shards, tasks) && ClosersOk(shards, clients, tasks) && LogOk(shards, tasks, log)
    ensures HoldersOk(cfg, shards, tasks[t := y]) && ClosersOk(shards, clients, tasks[t := y])
      && LogOk(shards, tasks[t := y], log)
  {
    TaskTallies(tasks, t, y, HolderKey);
    TaskTallies(tasks, t, y, CloserKey);
    LogTask(shards, tasks, log, t, y);
  }

  lemma NodesSame(nodes: map<nat, Counter>, tasks: seq<Task>, t: nat, y: Task)
    requires t < |tasks| && NodesOk(nodes, tasks) && y.node == tasks[t].node && y.resolutions == tasks[t].resolutions
    ensures NodesOk(nodes, tasks[t := y])
  {
    TaskTallies(tasks, t, y, NodeKey);
  }

  /** Resolving a request moves it from its node's in-flight count to its completed or failed count. */
  lemma NodesResolve(net: Net, t: nat, ok: bool)
    requires t < |net.tasks| && NodesOk(net.nodes, net.tasks) && net.tasks[t].resolutions == 0
    ensures NodesOk(Resolve(net, t, ok).nodes, Resolve(net, t, ok).tasks)
  {
    var y := net.tasks[t].(resolutions := 1);
    TaskTallies(net.tasks, t, y, NodeKey);
    if y.node.Some? { TallyPositive(net.tasks, t, NodeKey, y.node.value); }
  }

  lemma BeginOk(cfg: Config, net: Net, node: Option<nat>)
    requires Inv(cfg, net)
    ensures Inv(cfg, Begin(net, node))
  {
    hide PeakOk, ListsOk;
    var y := Task(node, Loose(Fresh), None, 0, 0, 0, 0);
    var tasks := net.tasks + [y];
    BeginTasks(cfg, net, y);
    hide HoldersOk, ClosersOk, LogOk;
    BeginNodes(net, node);
  }

  lemma BeginTasks(cfg: Config, net: Net, y: Task)
    requires HoldersOk(cfg, net.shards, net.tasks) && ClosersOk(net.shards, net.clients, net.tasks)
    requires LogOk(net.shards, net.tasks, net.log) && Idle(y.phase)
    ensures HoldersOk(cfg, net.shards, net.tasks + [y]) && ClosersOk(net.shards, net.clients, net.tasks + [y])
    ensures LogOk(net.shards, net.tasks + [y], net.log)
  {
    TaskAppends(net.tasks, y, HolderKey);
    TaskAppends(net.tasks, y, CloserKey);
    var tasks := net.tasks + [y];
    forall t | 0 <= t < |tasks| ensures AttemptOk(tasks, net.log, t) {
      if t < |net.tasks| { assert AttemptOk(net.tasks, net.log, t); }
    }
  }

  lemma BeginNodes(net: Net, node: Option<nat>)
    requires NodesOk(net.nodes, net.tasks)
    ensures NodesOk(Begin(net, node).nodes, Begin(net, node).tasks)
  {
    TaskAppends(net.tasks, Task(node, Loose(Fresh), None, 0, 0, 0, 0), NodeKey);
  }

  /** A request between attempts ends and its future has long been told. */
  lemma EndedOk(cfg: Config, net: Net, t: nat)
    requires Inv(cfg, net) && t < |net.tasks| && net.tasks[t].phase == Loose(Ended)
    ensures Inv(cfg, SetTask(net, t, net.tasks[t].(phase := Finished)))
  {
    hide PeakOk, ListsOk, HoldersOk, ClosersOk, LogOk, NodesOk;
    var y := net.tasks[t].(phase := Finished);
    IdleTask(cfg, net.shards, net.clients, net.tasks, net.log, t, y);
    NodesSame(net.nodes, net.tasks, t, y);
    assert TaskOk(cfg, net.shards, net.tasks[t]);
  }

  /** A request between attempts gives up: its retries are spent, or its attempt callback raised. */
  lemma FailOk(cfg: Config, net: Net, t: nat, y: Task)
    requires Inv(cfg, net) && t < |net.tasks| && net.tasks[t].phase.Loose? && net.tasks[t].phase.reason != Ended
    requires y == net.tasks[t].(phase := Finished, attempts := y.attempts, cohortRetries := y.cohortRetries,
      transportRetries := y.transportRetries)
    requires y.cohortRetries <= cfg.cohortLimit && y.transportRetries <= cfg.transportLimit
    requires y.attempts == 1 + y.cohortRetries + y.transportRetries
    ensures Inv(cfg, Resolve(SetTask(net, t, y), t, false))
  {
    hide PeakOk, ListsOk, HoldersOk, ClosersOk, LogOk, NodesOk;
    var x := y.(resolutions := y.resolutions + 1);
    assert TaskOk(cfg, net.shards, net.tasks[t]);
    assert net.tasks[t := y][t := x] == net.tasks[t := x];
    IdleTask(cfg, net.shards, net.clients, net.tasks, net.log, t, x);
    NodesSame(net.nodes, net.tasks, t, y);
    NodesResolve(SetTask(net, t, y), t, false);
  }

  // ---- claiming ------------------------------------------------------------------------------

  /** Claiming the picked shard, or a new one when none is eligible, keeps the population within its bound. */
  lemma AcquirePeak(cfg: Config, net: Net)
    requires ClientsKnown(net) && PeakOk(cfg, net.shards, net.clients, net.peak)
    requires ListsOk(net.shards, net.clients, net.closed, net.nextShardId) && HoldersOk(cfg, net.shards, net.tasks)
    ensures var q := Acquire(cfg, net).0; PeakOk(cfg, q.shards, q.clients, q.peak)
  {
    var (q, id) := Acquire(cfg, net);
    if Pick(cfg, net).Some? {
      LiveChange(net.shards, net.clients, id, q.shards[id]);
      CeilMonotone(net.peak, q.peak, cfg.capacity);
    } else {
      PickNone(cfg, net);
      assert id !in net.shards && id !in net.clients;
      forall c | c in net.clients ensures net.shards[c].retiring || net.shards[c].inFlight == cfg.capacity {
        assert ShardOk(cfg, net.shards[c], Tally(net.tasks, HolderKey, c));
      }
      hide HoldersOk, ListsOk, Pick;
      NewShardPeak(cfg, net.shards, net.clients, id, q.shards[id]);
      CeilMonotone(LiveFlight(q.shards, q.clients), q.peak, cfg.capacity);
    }
  }

  /** One more shard, holding one request, beside full ones. */
  lemma NewShardPeak(cfg: Config, shards: map<nat, Shard>, clients: seq<nat>, id: nat, x: Shard)
    requires cfg.capacity >= 1 && id !in clients && !x.retiring && x.inFlight == 1
    requires forall c | c in clients :: c in shards && (shards[c].retiring || shards[c].inFlight == cfg.capacity)
    ensures LiveShards(shards[id := x], clients + [id])
      == Ceil(LiveFlight(shards[id := x], clients + [id]), cfg.capacity)
  {
    LiveFrame(shards, clients, id, x);
    LiveAppend(shards[id := x], clients, id);
    assert LiveShards(shards[id := x], [id]) == 1 && LiveFlight(shards[id := x], [id]) == 1 by {
      assert [id][1..] == [];
    }
    AllFull(cfg, shards, clients);
    CeilPlusOne(LiveShards(shards, clients), cfg.capacity);
  }

  lemma AcquireLists(cfg: Config, net: Net)
    requires ClientsKnown(net) && ListsOk(net.shards, net.clients, net.closed, net.nextShardId)
    ensures var q := Acquire(cfg, net).0; ListsOk(q.shards, q.clients, q.closed, q.nextShardId)
  {
    var (q, id) := Acquire(cfg, net);
    if Pick(cfg, net).Some? {
      assert id in net.clients;
    } else {
      assert id !in net.shards && id !in net.clients && id !in net.closed;
    }
  }

  /** The claimed shard is listed and not retiring, and it was not retiring before. */
  lemma AcquireFresh(cfg: Config, net: Net)
    requires ClientsKnown(net) && ListsOk(net.shards, net.clients, net.closed, net.nextShardId)
    ensures var (q, id) := Acquire(cfg, net);
      && id in q.clients && id in q.shards && !q.shards[id].retiring
      && (id in net.shards ==> !net.shards[id].retiring && net.shards[id].inFlight < cfg.capacity && id in net.clients)
      && (id !in net.shards ==> q.shards[id] == NEW_SHARD.(inFlight := 1, started := 1) && id !in net.clients)
      && (forall c | c in net.shards && c != id ::
         c in q.shards && q.shards[c] == net.shards[c] && (c in q.clients <==> c in net.clients))
      && (forall c | c in q.shards :: c == id || c in net.shards)
  {
  }

  lemma AttemptHolders(cfg: Config, net: Net, t: nat, y: Task)
    requires t < |net.tasks| && Idle(net.tasks[t].phase) && cfg.capacity >= 1
    requires ClientsKnown(net) && ListsOk(net.shards, net.clients, net.closed, net.nextShardId)
    requires HoldersOk(cfg, net.shards, net.tasks) && ClosersOk(net.shards, net.clients, net.tasks)
    requires y.phase.Attempting? && y.phase.shard == Acquire(cfg, net).1
    ensures var q := Acquire(cfg, net).0;
      HoldersOk(cfg, q.shards, net.tasks[t := y]) && ClosersOk(q.shards, q.clients, net.tasks[t := y])
  {
    hide Acquire;
    var (q, id) := Acquire(cfg, net);
    AcquireFresh(cfg, net);
    AcquireCounts(cfg, net);
    TaskTallies(net.tasks, t, y, HolderKey);
    TaskTallies(net.tasks, t, y, CloserKey);
    if id !in net.shards { NobodyOn(net.shards, net.clients, net.tasks, id); }
    forall c | c in q.shards ensures ShardOk(cfg, q.shards[c], Tally(net.tasks[t := y], HolderKey, c)) {
      if c in net.shards { assert ShardOk(cfg, net.shards[c], Tally(net.tasks, HolderKey, c)); }
    }
  }

  lemma AcquireCounts(cfg: Config, net: Net)
    requires ClientsKnown(net)
    ensures var (q, id) := Acquire(cfg, net);
      id in net.shards && Pick(cfg, net).Some? ==>
        q.shards[id] == net.shards[id].(inFlight := net.shards[id].inFlight + 1, started := net.shards[id].started + 1)
    ensures var (q, id) := Acquire(cfg, net); id in net.shards && !Pick(cfg, net).Some? ==> id == net.nextShardId
    ensures var q := Acquire(cfg, net).0;
      q.tasks == net.tasks && q.log == net.log && q.nodes == net.nodes && q.closed == net.closed
  {
  }
}
