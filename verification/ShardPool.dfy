/**
 The network manager's client shards and the requests that hold them.  A request's coroutine is
 atomic between two awaits; the functions below are the pieces of such segments.
 */
module ShardPool {
  import opened Prelude

  datatype Config = Config(capacity: nat, cohortLimit: nat, transportLimit: nat, stallSeconds: int, evidence: nat)

  datatype Shard = Shard(
    inFlight: nat,
    started: nat,
    completed: nat,
    failed: nat,
    stalls: nat,
    retiring: bool,
    lastTerminal: int)

  const NEW_SHARD := Shard(0, 0, 0, 0, 0, false, 0)

  /** Why a request is between two attempts. */
  datatype Reason = Fresh | Stalled | Broken | Ended

  /** Between attempts; awaiting a response on a shard; awaiting the closing of a retired shard; done. */
  datatype Phase =
    | Loose(reason: Reason)
    | Attempting(shard: nat, since: nat, baseline: int, startedAt: int)
    | Closing(shard: nat, reason: Reason)
    | Finished

  datatype Task = Task(
    node: Option<nat>,
    phase: Phase,
    last: Option<nat>,
    cohortRetries: nat,
    transportRetries: nat,
    attempts: nat,
    resolutions: nat)

  datatype Counter = Counter(dispatched: nat, completed: nat, failed: nat, inFlight: nat)

  /** An attempt of request `task` on `shard` that ended with a response or a failure. */
  datatype Terminal = Terminal(shard: nat, task: nat)

  /** `closed` lists the shards whose client was closed and removed; `log` and `peak` only observe. */
  datatype Net = Net(
    shards: map<nat, Shard>,
    clients: seq<nat>,
    nextIndex: nat,
    nextShardId: nat,
    closed: seq<nat>,
    tasks: seq<Task>,
    nodes: map<nat, Counter>,
    log: seq<Terminal>,
    peak: nat)

  const EMPTY_NET := Net(map[], [], 0, 1, [], [], map[], [], 0)

  /** How an attempt ends. */
  datatype Outcome = Response | Stall | TransportError | OtherError

  // ---- choosing a shard ----------------------------------------------------------------------

  predicate ClientsKnown(net: Net) {
    forall k | 0 <= k < |net.clients| :: net.clients[k] in net.shards
  }

  predicate Eligible(cfg: Config, net: Net, id: nat) {
    id in net.shards && !net.shards[id].retiring && net.shards[id].inFlight < cfg.capacity
  }

  function Rotated(net: Net, offset: nat): (index: nat)
    requires net.clients != []
    ensures index < |net.clients|
  {
    (net.nextIndex + offset) % |net.clients|
  }

  /** The best of the first `count` candidates in rotation order: eligible, and busier than any before. */
  function BestOf(cfg: Config, net: Net, count: nat): (best: Option<nat>)
    requires ClientsKnown(net) && net.clients != []
    ensures best.Some? ==> best.value < |net.clients| && Eligible(cfg, net, net.clients[best.value])
  {
    if count == 0 then None
    else
      var best := BestOf(cfg, net, count - 1);
      var index := Rotated(net, count - 1);
      if Eligible(cfg, net, net.clients[index])
         && (best.None? || net.shards[net.clients[index]].inFlight > net.shards[net.clients[best.value]].inFlight)
      then Some(index) else best
  }

  function Pick(cfg: Config, net: Net): (best: Option<nat>)
    requires ClientsKnown(net)
    ensures best.Some? ==> best.value < |net.clients| && Eligible(cfg, net, net.clients[best.value])
  {
    if net.clients == [] then None else BestOf(cfg, net, |net.clients|)
  }

  // ---- population ----------------------------------------------------------------------------

  /** The shards that still take work, among `clients`, and the requests on them. */
  function LiveShards(shards: map<nat, Shard>, clients: seq<nat>): nat {
    if clients == [] then 0
    else (if clients[0] in shards && !shards[clients[0]].retiring then 1 else 0) + LiveShards(shards, clients[1..])
  }

  function LiveFlight(shards: map<nat, Shard>, clients: seq<nat>): nat {
    if clients == [] then 0
    else (if clients[0] in shards && !shards[clients[0]].retiring then shards[clients[0]].inFlight else 0)
         + LiveFlight(shards, clients[1..])
  }

  // ---- pieces of a request's coroutine -------------------------------------------------------

  /** `_acquire_client`: the chosen or a new shard, claimed. */
  function Acquire(cfg: Config, net: Net): (Net, nat)
    requires ClientsKnown(net)
  {
    var best := Pick(cfg, net);
    var id := if best.Some? then net.clients[best.value] else net.nextShardId;
    var shard := if best.Some? then net.shards[id] else NEW_SHARD;
    var shards := net.shards[id := shard.(inFlight := shard.inFlight + 1, started := shard.started + 1)];
    var clients := if best.Some? then net.clients else net.clients + [id];
    (net.(shards := shards,
          clients := clients,
          nextShardId := if best.Some? then net.nextShardId else net.nextShardId + 1,
          nextIndex := if best.Some? then (best.value + 1) % |net.clients| else 0,
          peak := Max(net.peak, LiveFlight(shards, clients))),
     id)
  }

  function SetTask(net: Net, t: nat, task: Task): Net
    requires t < |net.tasks|
  {
    net.(tasks := net.tasks[t := task])
  }

  function CounterOf(net: Net, node: nat): Counter {
    if node in net.nodes then net.nodes[node] else Counter(0, 0, 0, 0)
  }

  /** The future and the node's counters learn how the request ended. */
  function Resolve(net: Net, t: nat, ok: bool): Net
    requires t < |net.tasks|
  {
    var task := net.tasks[t];
    var q := SetTask(net, t, task.(resolutions := task.resolutions + 1));
    if task.node.None? then q
    else
      var c := CounterOf(net, task.node.value);
      q.(nodes := net.nodes[task.node.value :=
        c.(completed := if ok then c.completed + 1 else c.completed,
           failed := if ok then c.failed else c.failed + 1,
           inFlight := if c.inFlight > 0 then c.inFlight - 1 else 0)])
  }

  /** `_execute` begins to run a request that was not cancelled. */
  function Begin(net: Net, node: Option<nat>): Net {
    var q := net.(tasks := net.tasks + [Task(node, Loose(Fresh), None, 0, 0, 0, 0)]);
    if node.None? then q
    else
      var c := CounterOf(net, node.value);
      q.(nodes := net.nodes[node.value := c.(dispatched := c.dispatched + 1, inFlight := c.inFlight + 1)])
  }

  /** The top of the attempt loop; `raises` when the attempt callback raises. */
  function Attempt(cfg: Config, net: Net, t: nat, raises: bool, now: int): Net
    requires ClientsKnown(net) && t < |net.tasks|
  {
    var task := net.tasks[t].(attempts := net.tasks[t].attempts + 1);
    if raises then Resolve(SetTask(net, t, task.(phase := Finished)), t, false)
    else
      var (q, id) := Acquire(cfg, net);
      var shard := q.shards[id];
      SetTask(q, t, task.(phase := Attempting(id, |net.log|, shard.completed + shard.failed, now), last := Some(id)))
  }

  function GiveUp(net: Net, t: nat): Net
    requires t < |net.tasks|
  {
    Resolve(SetTask(net, t, net.tasks[t].(phase := Finished)), t, false)
  }

  /** What follows once the last attempt's shard has been released. */
  function Proceed(cfg: Config, net: Net, t: nat, raises: bool, now: int): Net
    requires ClientsKnown(net) && t < |net.tasks| && net.tasks[t].phase.Loose?
  {
    var task := net.tasks[t];
    match task.phase.reason
    case Fresh => Attempt(cfg, net, t, raises, now)
    case Ended => SetTask(net, t, task.(phase := Finished))
    case Stalled =>
      if task.cohortRetries >= cfg.cohortLimit then GiveUp(net, t)
      else Attempt(cfg, SetTask(net, t, task.(cohortRetries := task.cohortRetries + 1)), t, raises, now)
    case Broken =>
      if task.transportRetries >= cfg.transportLimit then GiveUp(net, t)
      else Attempt(cfg, SetTask(net, t, task.(transportRetries := task.transportRetries + 1)), t, raises, now)
  }

  /** The shard's counters when one of its attempts ends, the release included. */
  function Settle(shard: Shard, outcome: Outcome, now: int): Shard {
    var s := shard.(inFlight := if shard.inFlight > 0 then shard.inFlight - 1 else 0);
    match outcome
    case Response => s.(completed := s.completed + 1, lastTerminal := now)
    case Stall => s.(stalls := s.stalls + 1, retiring := true)
    case TransportError => s.(failed := s.failed + 1, lastTerminal := now, retiring := true)
    case OtherError => s.(failed := s.failed + 1, lastTerminal := now)
  }

  function ReasonFor(outcome: Outcome): Reason {
    match outcome
    case Response => Ended
    case Stall => Stalled
    case TransportError => Broken
    case OtherError => Ended
  }

  /** An attempt ends.  Whoever takes a retiring shard's in-flight count to zero goes on to close it. */
  function EndAttempt(net: Net, t: nat, outcome: Outcome, now: int): Net
    requires t < |net.tasks| && net.tasks[t].phase.Attempting? && net.tasks[t].phase.shard in net.shards
  {
    var id := net.tasks[t].phase.shard;
    var shard := Settle(net.shards[id], outcome, now);
    var reason := ReasonFor(outcome);
    var phase := if shard.retiring && shard.inFlight == 0 then Closing(id, reason) else Loose(reason);
    var q := SetTask(net, t, net.tasks[t].(phase := phase)).(
      shards := net.shards[id := shard],
      log := if outcome.Stall? then net.log else net.log + [Terminal(id, t)]);
    if outcome.Response? || outcome.OtherError? then Resolve(q, t, outcome.Response?) else q
  }

  function Without(s: seq<nat>, id: nat): seq<nat> {
    if s == [] then [] else if s[0] == id then s[1..] else [s[0]] + Without(s[1..], id)
  }

  /** `aclose` returns: the shard leaves the list. */
  function EndClose(net: Net, t: nat): Net
    requires t < |net.tasks| && net.tasks[t].phase.Closing?
  {
    var phase := net.tasks[t].phase;
    SetTask(net, t, net.tasks[t].(phase := Loose(phase.reason))).(
      clients := Without(net.clients, phase.shard),
      closed := net.closed + [phase.shard])
  }

  /** Complete JSON without stream termination: the shard retires while the attempt goes on. */
  function Retire(net: Net, t: nat): Net
    requires t < |net.tasks| && net.tasks[t].phase.Attempting? && net.tasks[t].phase.shard in net.shards
  {
    var id := net.tasks[t].phase.shard;
    net.(shards := net.shards[id := net.shards[id].(retiring := true)])
  }

  // ---- the stall test ------------------------------------------------------------------------

  /** Attempts that ended on the shard with a response or a failure since the attempt began. */
  function SiblingTerminals(shard: Shard, baseline: int): int {
    shard.completed + shard.failed - baseline
  }

  /** `_cohort_stream_stall_reason` finds a reason. */
  predicate StallReason(cfg: Config, shard: Shard, baseline: int, startedAt: int, now: int) {
    var siblings := SiblingTerminals(shard, baseline);
    var available := (if shard.inFlight >= 1 then shard.inFlight - 1 else 0) + siblings;
    var most := if available > 2 then available else 2;
    var needed := if cfg.evidence < most then cfg.evidence else most;
    now - startedAt >= cfg.stallSeconds && siblings >= needed && shard.lastTerminal >= startedAt
  }

  // ---- steps ---------------------------------------------------------------------------------

  /** A segment of a request.  How and when an attempt ends is not the pool's to say; a stall too is handled some
      time after its test held. */
  datatype Step =
    | BeginStep(node: Option<nat>)
    | ProceedStep(t: nat, raises: bool, now: int)
    | EndStep(t: nat, outcome: Outcome, now: int)
    | CloseStep(t: nat)
    | RetireStep(t: nat)

  predicate Enabled(net: Net, s: Step) {
    match s
    case BeginStep(_) => true
    case ProceedStep(t, _, _) => ClientsKnown(net) && t < |net.tasks| && net.tasks[t].phase.Loose?
    case EndStep(t, _, _) => t < |net.tasks| && net.tasks[t].phase.Attempting? && net.tasks[t].phase.shard in net.shards
    case CloseStep(t) => t < |net.tasks| && net.tasks[t].phase.Closing?
    case RetireStep(t) => t < |net.tasks| && net.tasks[t].phase.Attempting? && net.tasks[t].phase.shard in net.shards
  }

  function Apply(cfg: Config, net: Net, s: Step): Net
    requires Enabled(net, s)
  {
    match s
    case BeginStep(node) => Begin(net, node)
    case ProceedStep(t, raises, now) => Proceed(cfg, net, t, raises, now)
    case EndStep(t, outcome, now) => EndAttempt(net, t, outcome, now)
    case CloseStep(t) => EndClose(net, t)
    case RetireStep(t) => Retire(net, t)
  }
}
