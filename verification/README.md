# Scheduling engine: a verified model

A Dafny model of the workflow manager's scheduling engine and proofs of what it promises over whole runs.
`dafny verify dfyconfig.toml` checks everything.

| component | files | what is modelled |
|---|---|---|
| cooperative fiber pump | FiberModel, FiberInvariant, FiberSteps, FiberService, FiberPolling, FiberProgress, FiberTurns, FiberRuntime | ready queue, sleeper and deadline heaps, waiter table with per-wait tokens, completion queue and event, cancellation polling, admission bursts, `run_source` |
| elastic thread pool | ElasticPool, ElasticRuns, ElasticErrors, ElasticProgress, ElasticLimits, ElasticRunner | workers, loader and manager as the critical sections between lock acquisitions; what a run does, where its error comes from, and that it comes to an end |
| client shards and retries | ShardPool, ShardInvariant, ShardRuns, ShardTheorems, ShardManager, ResponseStream | shard choice, claim, release, retirement, the attempt loop, the stall test, reading one streamed response |
| ingress and cancellation | Ingress, FutureBinding | the put, lock, schedule hand-over of requests; `cancel` racing `bind_task` |
| lanes | Lanes, ShardedRun | the exact split of a live limit, aggregate in-flight work, the shared source, collecting lane results |
| API allocation | Allocation, AllocationLoops, ApiLimits, AllocationOrder | bounded largest-remainder allocation with both correction loops; when it reverses two requests |
| component quotient | Digraph, Topology, Intervals | augmented graph, components, acyclic quotient, intervals, execution order |
| process pool | ProcessModel, ProcessSchedules, ProcessRunner | the lazy source run over all its schedules, and its failure path |
| readiness and lineage | Readiness, LineageRuns | parent observations, sampled resumes, runs of many components |
| sampling | Sampling, SampleSelectors | counts, rank selection, selector parsing |

Concurrent components are state machines: a step is what happens between two lock acquisitions, two awaits or two
switches, a run is any sequence of steps that are possible when they are taken, and theorems speak of every run from
the empty state. Beside each machine stands a class with the source's own operations and loops; its methods are
proved equal to the machine's functions and let the other parties act wherever the source lets go of its lock, its
coroutine or its event. Job controllers, HTTP outcomes, hashes and clocks are parameters: arbitrary functions or
arbitrary values read at each step.

Where the code differs from what one would expect of it, the model follows the code:

- A list run on threads can hang. Over a nonempty list some run that reads given limits, each any number of times, is
  stuck for good if and only if all items succeed and the limits decrease somewhere (`ElasticLimits.HangsExactly`,
  `ElasticRuns.StuckForever`); one item and a limit that goes from two to one are enough (`ElasticLimits.OneItemHangs`).
- If the limit provider raises while a threaded run is under way, the caller gets that error but no worker is told to
  stop (`ElasticRunner.AdaptiveRun.RunAdaptive`, `ElasticRunner.LeaveWorkers`). If the limits never decreased before,
  the workers left behind, unless one of them fails, run every item the source still gives
  (`ElasticProgress.OrphansDrain`). If they decreased, the workers may all have retired and the items are lost: over a
  nonempty list that can happen if and only if the limits decrease somewhere (`ElasticLimits.LosesExactly`,
  `ElasticLimits.BothLost`).
- A process run can return with part of its source unread: it ends whenever one wait finds every outstanding job
  finished, which with one process is after the first job. For jobs that all succeed, every run reads the whole
  source if and only if the source is no longer than the pool (`ProcessSchedules.WholeSourceExactly`).
- On the direct path a cancel can miss a request that started before it was bound
  (`FutureBinding.DirectCancelCanMiss`); on the queued path it cannot.
- A larger request can get the smaller share (`ApiLimits.SmallestCanWin`). It does if and only if both requests round
  down to the same number of slots, the smaller one wants more than that, and the slots left over run out between the
  two in remainder order (`AllocationOrder.InversionExactly`); then the smaller one rounds down to no slot and the
  larger to at most one (`AllocationOrder.InversionAtOneSlot`).
- A snapshot iterable that raises part way through a pull loses the items of that pull: they are neither started nor
  abandoned (`FiberRuntimeClass.FiberRuntime.PullItems` says exactly when, `FiberRuntimeClass.LoseOneItem` does it).
- An interrupted resume without an override raises instead of refusing when a parent is not done
  (`Readiness.ResumeWithoutOverrideRaises`, at one running parent `Readiness.RunningParentRaises`). The repository's own
  callers of it always pass an override.

## Model

| member | source | states |
|---|---|---|
| FiberSteps.StepOk | micro_workflow_manager/fibers.py:250-459 | every step of the pump or of a producer thread, in any order, keeps the places, the ledger, the waiter registry and the wakeup signals consistent |
| FiberSteps.FiberExclusivity | micro_workflow_manager/fibers.py:255-302 | in every reachable state an unfinished fiber is exactly once ready, or exactly once asleep, or behind exactly one live registered waiter with its token and future, and a finished one is nowhere |
| FiberSteps.ActiveCountExact | micro_workflow_manager/fibers.py:255-318 | the active count is the number of unfinished fibers, and zero exactly when all are finished |
| FiberSteps.NoFiberStranded | micro_workflow_manager/fibers.py:335-439 | with nothing ready, asleep or completed, each unfinished fiber waits for a future whose callback is still to come, however timeouts, cancellations and completions raced |
| FiberSteps.NoLostWakeup | micro_workflow_manager/fibers.py:250-253 | whenever the pump may wait with a non-empty completion queue, the event is set or a producer stands between its put and its set |
| FiberSteps.DeliverReachesAll | micro_workflow_manager/fibers.py:341-359 | delivering a completion makes every fiber waiting for that future ready, once |
| FiberTurns.DrainDelivers | micro_workflow_manager/fibers.py:335-364 | draining the completion queue makes whoever waits for any future on it ready with what that future came to |
| FiberSteps.NaturalUnique | micro_workflow_manager/runners/direct.py:5-9 | for every controller, of two histories in which each wait ran to its own end one extends the other |
| FiberSteps.DirectUnique | micro_workflow_manager/runners/direct.py:5-9 | so sequential execution has at most one result, for every controller |
| FiberSteps.RefinesDirect | micro_workflow_manager/runners/direct.py:5-9 | when all fibers have finished without error, the result of a fiber none of whose waits timed out or was cancelled is the sequential one, for every controller; with such waits it still is for a controller whose returned value does not depend on them |
| FiberSteps.FirstErrorExactly | micro_workflow_manager/fibers.py:262-265 | in every reachable state there is a first error exactly when some fiber has ended without a result, and it is what the first of these raised itself, or the error of an unsupported value it yielded |
| FiberSteps.EndsInOrder | micro_workflow_manager/fibers.py:255-302 | the record of failed fibers is in the order of their endings: a step adds at most one fiber, at its end, and one that it has just ended |
| FiberService.FireSleepersOk | micro_workflow_manager/fibers.py:366-377 | firing the due sleepers keeps the invariant and finishes no fiber, and leaves no sleeper that is due |
| FiberService.FireDeadlinesOk | micro_workflow_manager/fibers.py:379-395 | expiring the due deadlines keeps the invariant and leaves none that is due |
| FiberService.SleepersNotEarly | micro_workflow_manager/fibers.py:367-377 | exactly the leading sleepers that are due leave the heap |
| FiberService.DeadlinesNotEarly | micro_workflow_manager/fibers.py:379-395 | a waiter that expiring retires had a deadline that is due |
| FiberService.SleeperPlace | micro_workflow_manager/fibers.py:292-297 | a timer is queued behind all that are due no later, so timers due at once fire in the order in which they were set |
| FiberService.DeadlinePlace | micro_workflow_manager/fibers.py:287-291 | and so do deadlines |
| FiberTurns.DueSleeperWakes | micro_workflow_manager/fibers.py:367-377 | each due sleeper becomes ready, with the error of its own call of the check if that raised and plainly otherwise |
| FiberTurns.ResumedWith | micro_workflow_manager/fibers.py:512-516 | the head of the ready queue is switched in with the very resume it was queued with, and no other fiber receives anything |
| FiberPolling.CancellationReachesAll | micro_workflow_manager/fibers.py:397-439 | a polling round decides every guarded wait, on a future or asleep, by one call of the check: if that call raises the fiber is ready with its error, and if not it waits on |
| FiberProgress.PumpEnds | micro_workflow_manager/fibers.py:250-459 | for controllers of at most `bound` waits each, a run that starts n fibers has at most (6 * bound + 5) * n steps that resume a fiber, wake one, fire a timer, or queue, announce or deliver a completion |
| FiberProgress.CanAdvance | micro_workflow_manager/fibers.py:335-459 | while a fiber is unfinished and no registered callback waits for a pending future, such a step is possible |
| FiberProgress.RestMeansFinished | micro_workflow_manager/fibers.py:335-459 | so a run in which none is possible and no future is pending has finished every fiber |
| FiberTurns.WorkMakesReady | micro_workflow_manager/fibers.py:335-395 | if a fiber is ready, its future is on the queue, or its sleep or deadline is over, then after servicing some fiber is ready |
| FiberTurns.IdleMeansAllWait | micro_workflow_manager/fibers.py:441-459 | with nothing ready or due, every unfinished fiber sleeps past the present or waits for a future whose callback was still owed |
| FiberTurns.SwitchesBound | micro_workflow_manager/fibers.py:255-302 | controllers of at most `bound` waits are switched in at most `bound + 1` times each |
| FiberRuntimeClass.FiberRuntime.Create | micro_workflow_manager/fibers.py:202-248 | construction fails exactly on a non-positive poll interval, burst, service interval, state-writer interval or a negative pressure wait, and otherwise stores them and starts empty |
| FiberRuntimeClass.FiberRuntime.ResumeState | micro_workflow_manager/fibers.py:255-302 | switching a fiber in and filing what it yields is the machine's resume step, of which `FirstErrorExactly`, `ResumedWith` and `FiberExclusivity` say what it does; a finished fiber is left alone |
| FiberRuntimeClass.FiberRuntime.DrainQueue | micro_workflow_manager/fibers.py:335-359 | the loop over the completion queue delivers each future to all its waiters, as the machine's drain does |
| FiberRuntimeClass.FiberRuntime.ClearAndRecheck | micro_workflow_manager/fibers.py:360-364 | clearing the event and looking again loses no completion that slips in between |
| FiberRuntimeClass.FiberRuntime.ProcessDeadlines | micro_workflow_manager/fibers.py:366-395 | both heap loops equal the machine's firing of sleepers and deadlines |
| FiberRuntimeClass.FiberRuntime.PollCancellation | micro_workflow_manager/fibers.py:397-439 | polling waiters and rebuilding the sleeper heap equals the machine's polling, for any order of the table |
| FiberRuntimeClass.FiberRuntime.Service | micro_workflow_manager/fibers.py:530-535 | one servicing block: first every fiber waiting for a completion queued before is ready with its outcome, then no sleeper or active deadline is due at the time read, then, exactly when the poll is due, every guarded wait has been decided by its own check |
| FiberRuntimeClass.FiberRuntime.NextWaitTimeout | micro_workflow_manager/fibers.py:441-459 | the timeout is the least of the next poll, the earliest sleeper and the earliest deadline of an active waiter, and drops only retired deadlines |
| FiberRuntimeClass.FiberRuntime.PullItems | micro_workflow_manager/fibers.py:486-499 | a pull takes a prefix of what is left, at most the capacity; a refreshable source is asked once for the capacity and what it gives is what is pulled; a snapshot fails exactly when it raises within the asked capacity, and the partial batch is then lost |
| FiberRuntimeClass.FiberRuntime.Admission | micro_workflow_manager/fibers.py:546-598 | admission never raises the number of active fibers above the limit it read or above what it was; from a snapshot it starts as many as fit, the burst allows and are left; it services once after every so many starts |
| FiberRuntimeClass.FiberRuntime.AdaptBurst | micro_workflow_manager/fibers.py:562-572 | a full pull with room left makes the next burst twice the pull, at least sixteen and at most the maximum; a short pull makes it sixteen again, within the maximum; otherwise it stays |
| FiberRuntimeClass.FiberRuntime.Turn | micro_workflow_manager/fibers.py:530-656 | a turn that begins with a fiber ready, a waited-for completion queued, or a sleep or deadline over by its first reading of the clock switches a fiber in; one that switches none in and goes on leaves every unfinished fiber waiting for a later time or a future that was pending when it began, with no listed item that fits; nothing is pulled after the first error, in this turn or a later one; a turn fails only with no fiber active, and waits only when every queued completion has the event set or about to be set |
| FiberRuntimeClass.FiberRuntime.RunSource | micro_workflow_manager/fibers.py:472-658 | over the whole run every pulled item is started, abandoned or lost with a raising snapshot, and all of them were pulled before the first error; what is raised is the own error of the first fiber to have ended in one, and only when all started fibers have finished; a normal return has one value for each item pulled, in order, each the sequential one as `RefinesDirect` says, and a snapshot was pulled whole unless a limit was read as zero; a run is still going on only as far as its turns switched fibers in or were idle, every fiber waiting for something that had not happened |
| FiberRuntimeClass.RunEnds | micro_workflow_manager/fibers.py:530-656 | over a list, with controllers of at most `bound` waits and sleeps whose end the clock reaches by its n-th reading, a run is over after n + (bound + 1) * items turns unless some future is never completed: every idle turn but n began with one pending |
| FiberRuntimeClass.UndisturbedReturn | micro_workflow_manager/runners/direct.py:5-9 | a return in which no wait timed out or was cancelled is the sequential execution of the items, whatever the controllers |
| FiberRuntimeClass.QuietReturn | micro_workflow_manager/runners/direct.py:5-9 | in particular where no wait has a deadline and no check raises |
| FiberRuntimeClass.LoseOneItem | micro_workflow_manager/fibers.py:486-499 | a snapshot of one item that raises after it, pulled with room for two: the item is pulled, started nowhere and lost |
| ElasticPool.StepOk | micro_workflow_manager/runners/threaded.py:126-299 | every critical section of workers, loader and manager keeps indices contiguous, the buffer exact and every handed-out index accounted for |
| ElasticRuns.NormalReturn | micro_workflow_manager/runners/threaded.py:261-299 | an error-free return has handed out everything the source gave, once and in order, and its results are the sequential map |
| ElasticErrors.ReturnReadsAll | micro_workflow_manager/runners/threaded.py:145-186 | its results are those of all that the loads gave, batch after batch, and a load found the source at its end before any stop |
| ElasticErrors.ErrorStep | micro_workflow_manager/runners/threaded.py:200-225 | an error is recorded exactly by the first report of one, as the reporting worker's own, and a worker holds one only as its job or its load raised it |
| ElasticErrors.ErrorFrom | micro_workflow_manager/runners/threaded.py:171-225 | whatever error a run records was raised by the job of an item handed out, which has no result, or by a load of the run, never by reading a list |
| ElasticErrors.FirstReported | micro_workflow_manager/runners/threaded.py:200-225 | there is a first error exactly when some step of the run reports one, and it is that of the worker reporting first, at that moment |
| ElasticErrors.NothingAfterError | micro_workflow_manager/runners/threaded.py:126-225 | once an error is recorded no item is handed out and no load is begun |
| ElasticRuns.HandedOutOnce | micro_workflow_manager/runners/threaded.py:126-186 | an item not yet handed out is in the buffer at its place; one handed out has its result or is with exactly one worker |
| ElasticRuns.ExhaustedMeansEmpty | micro_workflow_manager/runners/threaded.py:176-186 | the source is only called exhausted with an empty buffer and nobody loading, and without an error only when it has ended |
| ElasticRuns.ReplacementExact | micro_workflow_manager/runners/threaded.py:275-290 | with no worker, no error and an unexhausted source the next turn starts a worker if and only if the source is lazy or some listed item is unclaimed |
| ElasticRuns.GrowsGeometrically | micro_workflow_manager/runners/threaded.py:275-290 | while a lazy source lasts and nobody leaves, the workers double with every manager turn up to the limit |
| ElasticRuns.TurnStarts | micro_workflow_manager/runners/threaded.py:275-290 | a manager turn starts as many workers as there are, at least one, within the limit and the unclaimed listed items |
| ElasticRuns.StartsWith | micro_workflow_manager/runners/threaded.py:251-259 | a run starts with as many workers as the limit says, at most eight and at most one for each listed item |
| ElasticRuns.StuckForever | micro_workflow_manager/runners/threaded.py:261-290 | a list with everything claimed, no worker and no end seen never returns, whatever follows |
| ElasticLimits.HangsExactly | micro_workflow_manager/runners/threaded.py:197-290 | for a nonempty list and any sequence of limits read at the start and by the manager, each any number of times: some run is stuck with every item claimed, no worker and no end seen if and only if all items succeed and the limits decrease somewhere |
| ElasticLimits.Deserted | micro_workflow_manager/runners/threaded.py:197-290 | where the limits decrease, a run can claim and finish any number of items that succeed and then lose all its workers |
| ElasticLimits.LosesExactly | micro_workflow_manager/runners/threaded.py:197-290 | over a nonempty list a run that reads the limits can come to have no worker, no error and an unclaimed item, which only the manager could still give to somebody, if and only if the limits decrease somewhere |
| ElasticLimits.OneItemHangs | micro_workflow_manager/runners/threaded.py:197-290 | one item that succeeds and the limits two and one |
| ElasticLimits.BothLost | micro_workflow_manager/runners/threaded.py:197-290 | two items, neither claimed, and the limits two and one: nothing but a manager turn is possible any more |
| ElasticRuns.SteadyNeverStuck | micro_workflow_manager/runners/threaded.py:232-290 | with limits that never decrease the pool is never stuck, never above its limit, and never without a worker before the end or an error, for lists and lazy sources; `HangsExactly` has the converse |
| ElasticProgress.PoolEnds | micro_workflow_manager/runners/threaded.py:186-294 | with limits that never decrease and a source of at most n items, at most 5n + 7 * MAX_RUNTIME_THREADS + 2 steps of any run change anything |
| ElasticProgress.AlwaysProductive | micro_workflow_manager/runners/threaded.py:186-294 | until the pool has returned some step changes something without lowering the limit |
| ElasticProgress.RestMeansReturned | micro_workflow_manager/runners/threaded.py:261-299 | a steady run in which nothing more can change has returned |
| ElasticProgress.OrphansDrain | micro_workflow_manager/runners/threaded.py:188-238 | with limits that never decreased, without any further manager turn, when no worker can go on and none has failed, every item of the source has been run |
| ElasticRunner.AdaptiveRun.RunAdaptive | micro_workflow_manager/runners/threaded.py:101-299 | the pool a schedule of the object's critical sections and limit errors leads to is the one `Play` says; a normal return is the sequential result of everything the source gave; a raised error is what `run` gives for an item handed out that has no result, or, for a lazy source, what a load of the schedule raised; either leaves no worker; a limit that cannot be read is raised if and only if `Play` comes to it, with nobody told to stop |
| ElasticRunner.PlayIsRun | micro_workflow_manager/runners/threaded.py:186-299 | what a schedule leads to is what a run of the pool leads to, made of steps of the schedule |
| ElasticRunner.RunIsPlay | micro_workflow_manager/runners/threaded.py:186-299 | and a run of the pool is what the schedule of its steps leads to, none left out |
| ElasticRunner.LeaveWorkers | micro_workflow_manager/runners/threaded.py:275 | a limit that cannot be read at the first turn over two items: the error is raised with both workers at work |
| ElasticRunner.AdaptiveRun.TakeNext | micro_workflow_manager/runners/threaded.py:126-142 | the first critical section of `take_item`, on the shared variables, is the machine's take |
| ElasticRunner.AdaptiveRun.Manage | micro_workflow_manager/runners/threaded.py:261-294 | one manager turn, with its geometric growth and its clamp by the unclaimed items, is the machine's turn |
| ShardInvariant.BestOfSpec | micro_workflow_manager/network/manager.py:176-186 | scanning in rotation order finds the busiest shard with room, the first of equals, and none exactly when none has room |
| ShardRuns.StepOk | micro_workflow_manager/network/manager.py:221-384 | every segment of every request between two awaits keeps holders, lists, closers, terminal counts, retry budgets, node counters and the population bound |
| ShardTheorems.ShardAccounting | micro_workflow_manager/network/manager.py:163-198 | at every await point a shard's in-flight count is its number of holders, within capacity, and started equals completed plus failed plus stalled plus in flight |
| ShardTheorems.ClampsNeverFire | micro_workflow_manager/network/manager.py:192-193 | the shard or node counter that is decremented is at least one, so neither clamp at zero acts |
| ShardTheorems.NodeAccounting | micro_workflow_manager/network/manager.py:226-234 | a node's dispatched requests are completed, failed or in flight, and those in flight are its unresolved requests |
| ShardTheorems.NodeOutcomes | micro_workflow_manager/network/manager.py:345-378 | dispatched counts the requests begun, completed those answered, failed the rest that ended |
| ShardTheorems.ShardOutcomes | micro_workflow_manager/network/manager.py:309-348 | a shard's counters are the numbers of its attempts that ended each way, and it is retiring if and only if a stall, a transport error or unterminated JSON happened on it |
| ShardTheorems.ReplayElsewhere | micro_workflow_manager/network/manager.py:275-294 | a new attempt never gets a retiring or full shard, nor the shard of the attempt it replaces |
| ShardTheorems.ClosedOnce | micro_workflow_manager/network/manager.py:192-198 | a retired shard without holders is being closed by exactly one request or has been closed exactly once, and is listed until then and not after |
| ShardTheorems.AllClosedAtRest | micro_workflow_manager/network/manager.py:192-198 | when all requests have finished, exactly the retired shards are closed and no shard is held |
| ShardTheorems.AttemptBegins | micro_workflow_manager/network/manager.py:295-308 | a new attempt starts at the present time, with a baseline that counts no sibling yet |
| ShardTheorems.SiblingsCounted | micro_workflow_manager/network/recovery.py:175-180 | from an attempt's start the sibling-terminal count grows by exactly the other attempts that end on its shard by response or failure |
| ShardTheorems.StallEvidence | micro_workflow_manager/network/manager.py:295-305 | the count is at any time that of the terminals on the shard since the attempt began, none of them its own |
| ShardTheorems.LastTerminalFollows | micro_workflow_manager/network/recovery.py:186-191 | with a clock that does not run backwards, once a sibling has ended the shard's last terminal is no earlier than the attempt's start, so the test's third condition follows |
| ShardTheorems.StallExactly | micro_workflow_manager/network/recovery.py:168-198 | the stall test holds if and only if the attempt is old enough, a terminal followed its start, and enough siblings ended, or two did and no other request is on the shard |
| ShardTheorems.VerdictLasts | micro_workflow_manager/network/recovery.py:168-198 | whatever the others do between a stall's finding and its handling, with a clock that does not run backwards the attempt is still old enough, a terminal followed its start, and at least two siblings ended, or as many as the evidence asks for |
| ShardTheorems.PopulationBound | micro_workflow_manager/network/manager.py:169-190 | over any run the shards taking work never exceed the peak load on such shards over capacity, rounded up, replays included |
| ShardTheorems.ClaimChoice | micro_workflow_manager/network/manager.py:169-190 | a claim takes the busiest eligible shard, which the next rotation considers last; a shard is created only when none is eligible |
| ShardTheorems.BoundedRetries | micro_workflow_manager/network/manager.py:309-344 | attempts never exceed one plus both retry limits, and the future is resolved exactly once by the end and never before the outcome |
| ShardTheorems.RequestEnds | micro_workflow_manager/network/manager.py:264-384 | a request ends within a number of its own segments that its remaining work bounds, whatever the others do |
| ShardManager.NetworkManager.AcquireClient | micro_workflow_manager/network/manager.py:169-190 | the scan loop, the creation and the claim, on the object's fields, are the machine's acquisition |
| ShardManager.NetworkManager.EndAttempt | micro_workflow_manager/network/manager.py:309-384 | the handlers with the release each leads to are the machine's end of an attempt |
| ShardManager.NetworkManager.Execute | micro_workflow_manager/network/manager.py:221-384 | with any behaviour of the other requests at every await, the retry loop finishes, resolves once, and takes exactly the attempts, with exactly the answer, that its own outcomes call for, which `FateMeans` spells out |
| ShardManager.FateMeans | micro_workflow_manager/network/manager.py:309-344 | all attempts but the last stalled or broke, each within its own budget, and a last one that did so too found its budget spent |
| ResponseStream.Read | micro_workflow_manager/network/recovery.py:74-149 | the reading loop stops at the first decisive event, and the kind of that event is its outcome; the rows up to `CompleteIsKept` say over the events alone what that means |
| ResponseStream.ReadingEnds | micro_workflow_manager/network/recovery.py:74-155 | a reading goes on exactly while every event passes: no end of stream, no chunk with the stall test true and no whole document, and no wait with the test true, a whole document, or the read timeout over |
| ResponseStream.StallExactly | micro_workflow_manager/network/recovery.py:103-146 | it ends in a stream stall if and only if the first event that does not pass is a chunk or a wait at which the stall test is true and no whole document has been received |
| ResponseStream.TimeoutExactly | micro_workflow_manager/network/recovery.py:111-127 | it ends in a read timeout if and only if that event is a wait at which the test is false, no whole document has been received, and the read timeout has passed since the last chunk or the headers |
| ResponseStream.ResponseExactly | micro_workflow_manager/network/recovery.py:98-155 | it is a response if and only if that event is the end of the stream, or a wait after a whole document, which retires the shard; the body is what was received |
| ResponseStream.BodyJoins | micro_workflow_manager/network/recovery.py:132 | what two stretches of events bring is what the first brings, then what the second does |
| ResponseStream.BodyOfOne | micro_workflow_manager/network/recovery.py:132 | a chunk brings its bytes and no other event brings any |
| ResponseStream.ProgressMeans | micro_workflow_manager/network/recovery.py:111-134 | the time without progress is counted from the last chunk, or from the headers when none came |
| ResponseStream.CompleteIsKept | micro_workflow_manager/network/recovery.py:95-155 | a complete document is never given up as stalled or timed out; the shard is retired if and only if the document is complete and its stream did not end; the body is the bytes received |
| Ingress.NoRequestStranded | micro_workflow_manager/network/manager.py:386-401 | whenever the queue holds a request exactly one drain is pending or running, or a submitter is before its lock; dispatches are the puts, once each, in order |
| Ingress.RestMeansDispatched | micro_workflow_manager/network/manager.py:397-401 | when nothing but a new put can happen, everything submitted has been dispatched and no drain is scheduled |
| Ingress.RestComes | micro_workflow_manager/network/manager.py:386-401 | once puts stop, that state comes within a bounded number of steps |
| Ingress.IngressQueue.DrainIngress | micro_workflow_manager/network/manager.py:386-401 | a drain dispatches a prefix of at most the batch size, with submitters acting in between, and leaves a successor scheduled if and only if it leaves a request |
| FutureBinding.CancelReaches | micro_workflow_manager/network/types.py:44-59 | once both calls return the coroutine was told to cancel or was over, if and only if the canceller did not find an unbound running future; on the queued path always |
| FutureBinding.DirectCancelCanMiss | micro_workflow_manager/network/manager.py:418-428 | on the direct path a concrete interleaving leaves the coroutine running and never told |
| Lanes.SharesExact | micro_workflow_manager/runners/api.py:62-72 | the shares of the active lanes sum to exactly the total |
| Lanes.SharesFair | micro_workflow_manager/runners/api.py:68-72 | of two active lanes the earlier gets as much as the later, or one more |
| Lanes.ShareGrows | micro_workflow_manager/runners/api.py:62-76 | another lane's unregistering never shrinks a lane's share |
| Lanes.LaneCoordinator.Unregister | micro_workflow_manager/runners/api.py:74-76 | a lane that leaves is no longer active, and no other lane is affected |
| Lanes.LaneCoordinator.LimitFor | micro_workflow_manager/runners/api.py:62-72 | the limit is the lane's share by its position among the active lanes, zero for an inactive lane, an error below one |
| Lanes.AggregateBound | micro_workflow_manager/runners/api.py:295-326 | in every interleaving of total changes, stale limit reads, admissions, completions and exits, fibers in flight over all lanes never exceed the largest total there has been |
| Lanes.SteadyBound | micro_workflow_manager/runners/api.py:295-326 | with a total that never decreases they never exceed the current total |
| ShardedRun.OneLatePull | micro_workflow_manager/runners/api.py:21-31 | after the stop no lane takes from the source more than once, in any interleaving |
| ShardedRun.LateCounts | micro_workflow_manager/runners/api.py:21-31 | the count is that of the lane's takes in the run that come after the stop |
| ShardedRun.SharedRefreshableSource.Pull | micro_workflow_manager/runners/api.py:21-28 | a pull without room or after a stop that was seen takes nothing; any other returns exactly what the wrapped source offers, even when the stop comes after its test |
| ShardedRun.SharedRefreshableSource.WaitForChange | micro_workflow_manager/runners/api.py:37-51 | a change is reported if and only if the wrapped source has a waiter, that waiter reports one, and the source is stopped neither before the wait nor after it |
| ShardedRun.Collect | micro_workflow_manager/runners/api.py:328-340 | lane results are concatenated in completion order, and the first failure to complete is raised and stops the source |
| ShardedRun.EachInPlace | micro_workflow_manager/runners/api.py:334-340 | each lane's results stand once in what is collected, in the place of its completion |
| ShardedRun.AnyOrder | micro_workflow_manager/runners/api.py:334-340 | whatever order lanes complete in, the same results are collected as a bag |
| ApiLimits.Allocate | micro_workflow_manager/api_limits.py:4-59 | the loops compute the allocation and neither is ever left by its `not changed` exit |
| ApiLimits.RaiseLoop | micro_workflow_manager/api_limits.py:35-46 | the upward loop reaches the target in at most one pass, and not by its `not changed` exit |
| AllocationLoops.LowerProgress | micro_workflow_manager/api_limits.py:47-58 | while the target leaves every node a slot, a downward pass lowers some share |
| AllocationLoops.DeficitFits | micro_workflow_manager/api_limits.py:22-35 | rounding down leaves no more slots over than there are unsaturated nodes |
| AllocationLoops.RaiseSpec | micro_workflow_manager/api_limits.py:37-44 | a pass gives one slot each to the first unsaturated nodes in order and to no other |
| AllocationLoops.LowerSpec | micro_workflow_manager/api_limits.py:47-58 | the downward passes take exactly the excess and never a node's last slot |
| ApiLimits.AmpleBudget | micro_workflow_manager/api_limits.py:14-20 | without a budget below the sum of requests the checked requests are returned |
| ApiLimits.AllocationExact | micro_workflow_manager/api_limits.py:18-59 | shares sum to exactly the target, lie between one and the request, exceed the rounded-down proportion by at most one, and are all at least or all at most it |
| ApiLimits.LargestRemainders | micro_workflow_manager/api_limits.py:28-44 | slots left over go to nodes with larger remainders before others that want more |
| ApiLimits.AnyDictionaryOrder | micro_workflow_manager/api_limits.py:28-34 | the allocation does not depend on the order of the dictionary |
| ApiLimits.SmallestCanWin | micro_workflow_manager/api_limits.py:28-44 | requests 9, 11, 15, 15 with budget 5 give the 9 two slots and every other one |
| AllocationOrder.InversionExactly | micro_workflow_manager/api_limits.py:22-58 | in the bounded branch, for requests a below b, a's share exceeds b's if and only if both round down alike, a wants more, and a's rank among the unsaturated nodes in remainder order is below the deficit and b's is not |
| AllocationOrder.InversionAtOneSlot | micro_workflow_manager/api_limits.py:22-44 | such a pair shares at one slot: the smaller request's proportion is below one slot and the larger's below two |
| AllocationOrder.LoweringInOrder | micro_workflow_manager/api_limits.py:47-58 | the downward passes never give the larger request the smaller share |
| Digraph.TopologicalSort | micro_workflow_manager/topology.py:115 | the order lists each node once, points every edge forward and is lexicographically smallest |
| Digraph.Descendants | micro_workflow_manager/topology.py:108-113 | the search finds exactly the other nodes reachable from the source |
| Digraph.SourceExists | micro_workflow_manager/topology.py:137-142 | a finite non-empty part of an acyclic graph has a node without predecessors in it |
| Topology.HoefleinGraph | micro_workflow_manager/topology.py:29-34 | an edge is in the result if and only if it is a raw edge or the reverse of a raw edge that is an autostart edge, though edges are tested on the graph being extended |
| Topology.AutostartOrderIrrelevant | micro_workflow_manager/topology.py:31-33 | the visiting order of autostart edges does not matter |
| Topology.Components | micro_workflow_manager/topology.py:36-37 | the components are the classes of mutual reachability in the augmented graph, each once |
| Topology.ComponentsPartition | micro_workflow_manager/topology.py:73-80 | every node is in exactly one component, none of which is empty |
| Topology.ComponentDag | micro_workflow_manager/topology.py:82-92 | the quotient has the components as nodes and an edge exactly where a raw edge joins two different ones |
| Intervals.QuotientAcyclic | micro_workflow_manager/topology.py:82-92 | the quotient of the raw edges over the components of the augmented graph has no cycle |
| Intervals.FirstDecides | micro_workflow_manager/topology.py:39-42 | keys of disjoint components differ in their first entry, which is the smallest node |
| Intervals.ComponentInterval | micro_workflow_manager/topology.py:100-115 | unknown endpoints and an end that is not a strict descendant are refused; otherwise the list is exactly the components other than the end on a path from start to end, each once, edges forward, smallest keys first |
| Intervals.IntervalConvex | micro_workflow_manager/topology.py:100-115 | an interval contains its start, not its end nor any descendant of it, and every path between two of its components; paths point forward |
| Intervals.ExecutionComponents | micro_workflow_manager/topology.py:132-142 | exactly the components holding a selected node, each once, after everything it depends on |
| ProcessRunner.JobSourceRun.SubmitOne | micro_workflow_manager/runners/process.py:233-252 | a submission adds one outstanding job, or reports the end or the error of the source, and otherwise changes nothing |
| ProcessRunner.JobSourceRun.RunJobSource | micro_workflow_manager/runners/process.py:222-293 | on every path no job is left outstanding, never more than the maximum are, and each submitted job is reported once unless cancelled, which no job found finished by a wait is; a return has one value for each submitted job, in the order of the reports, has read a source no longer than the pool whole, and leaves a longer one partly unread if and only if a wait found all outstanding jobs finished while the source had more; an error is the first one, and then exactly those submitted jobs are cancelled that had not begun and that no wait had found finished |
| ProcessRunner.JobSourceRun.Drain | micro_workflow_manager/runners/process.py:280-291 | given which jobs have begun, after an error exactly the outstanding ones that have not and that no wait had found finished are cancelled, and all others reported; earlier reports stay |
| ProcessSchedules.WholeSourceExactly | micro_workflow_manager/runners/process.py:222-279 | for a source of jobs that all succeed, every schedule that returns has read the whole source if and only if the source is no longer than the pool |
| ProcessSchedules.ReturnsFull | micro_workflow_manager/runners/process.py:254-279 | a schedule that returns has submitted the whole source or at least as many jobs as the pool holds |
| ProcessSchedules.ShortRun | micro_workflow_manager/runners/process.py:270-279 | for every longer source a schedule that returns after exactly the pool's number of jobs |
| ProcessModel.CompleteReturn | micro_workflow_manager/runners/process.py:254-268 | a returned run has as many values as submitted jobs, and for each job one report with its own item and value, at whose place that value stands |
| Readiness.ComponentReadiness | micro_workflow_manager/component_readiness.py:8-47 | the loop's verdict is that of the set of observations: raised, blocked or overridden, stable, or the one lineage all parents share; the error raised is that of an empty override or else of the first bad observation |
| Readiness.RaisedExactly | micro_workflow_manager/component_readiness.py:8-47 | it raises if and only if the override origin is empty, some parent is in no known state, or a done parent is neither stable without an origin nor unstable with a named one |
| Readiness.OrderAndDuplicatesIrrelevant | micro_workflow_manager/component_readiness.py:30-47 | reordering or repeating observations does not change the verdict |
| Readiness.ResumeLineage | micro_workflow_manager/component_readiness.py:50-67 | an invalid established result raises; a valid one is given up if and only if the parents' lineage is unstable and different, and is kept otherwise |
| Readiness.InterruptResume | micro_workflow_manager/component_readiness.py:70-82 | an interrupted resume is decided by the done parents, the retained lineage and the override flag of all parents; an empty override or a bad observation raises the first fault |
| Readiness.OverriddenExactly | micro_workflow_manager/component_readiness.py:70-82 | a resumed result is marked overridden if and only if some parent is not done, and keeps its lineage |
| Readiness.ResumeWithoutOverrideRaises | micro_workflow_manager/component_readiness.py:82 | without an override and with a parent not done the resume raises exactly where it would have kept the lineage |
| Readiness.RunningParentRaises | micro_workflow_manager/component_readiness.py:70-82 | one running parent, a stable retained lineage and no override: the resume raises |
| LineageRuns.StableAncestors | micro_workflow_manager/component_readiness.py:8-82 | in every run every ancestor of a stable result is done and stable |
| LineageRuns.OriginTraced | micro_workflow_manager/component_readiness.py:8-82 | in every run the origin of an unstable result was introduced by an override at that component or an ancestor |
| LineageRuns.NoOverridesAllStable | micro_workflow_manager/component_readiness.py:22-28 | without overrides every result is stable |
| Sampling.SampleCount | micro_workflow_manager/sample_selection.py:47-60 | refused exactly on negative or excessive values; otherwise the value itself for a count, and for a percentage the least number that covers it |
| Sampling.PercentageIsCeiling | micro_workflow_manager/sample_selection.py:58-59 | a percentage yields the least count that covers it |
| Sampling.PercentageMonotone | micro_workflow_manager/sample_selection.py:58-59 | more percent or more candidates never mean fewer samples, and full percentage means all |
| Sampling.SelectSampleIds | micro_workflow_manager/sample_selection.py:72-86 | refused exactly on a bad count, name, seed or repeated identity; otherwise the ascending ids of a set of that size whose ranks all precede those left out |
| Sampling.SampleRanks | micro_workflow_manager/sample_selection.py:83-86 | a sample has `count` ids, ascending, and each has a smaller digest than every candidate left out, or the same digest and a smaller id |
| Sampling.SamplesNest | micro_workflow_manager/sample_selection.py:84-86 | equal requests give equal samples however candidates are traversed, and a larger count keeps the smaller sample |
| Sampling.OneSwap | micro_workflow_manager/sample_selection.py:84-86 | adding a candidate changes a sample by at most one swap, for that candidate |
| Sampling.FullySelected | micro_workflow_manager/sample_selection.py:89-98 | full coverage is reported exactly when the counts agree everywhere and some is positive |
| Sampling.HundredPercentIsFull | micro_workflow_manager/sample_selection.py:89-98 | selecting everything is full coverage exactly when some population is non-empty |
| SampleSelectors.ParseSelectors | micro_workflow_manager/sample_selection.py:14-44 | the loop's outcome is the first fault in the order of the checks, or a selector for every member; the next seven rows say on the text of the request what that is |
| SampleSelectors.NamedAccepted | micro_workflow_manager/sample_selection.py:27-44 | tokens `name=number`, all with a percent sign or all without, to different members and with numbers in range, are accepted: each named member gets its number and every other member zero, in that kind |
| SampleSelectors.LoneAccepted | micro_workflow_manager/sample_selection.py:27-44 | a lone number in range, with a percent sign or without, is the starting node's, and every other member gets zero |
| SampleSelectors.NamedRefused | micro_workflow_manager/sample_selection.py:32-42 | of such named tokens the first that names an outsider or a member twice, or is no number, or is out of range, is refused for that reason, in that order of reasons |
| SampleSelectors.LoneRefused | micro_workflow_manager/sample_selection.py:40-42 | a lone text that is no number is refused for that, and one below zero or a percentage above a hundred for its range |
| SampleSelectors.ShapeRefused | micro_workflow_manager/sample_selection.py:21-26 | before any number is read, a starting node outside the component, several shorthands, and names missing after a first name are refused, each for its reason |
| SampleSelectors.MixedRefused | micro_workflow_manager/sample_selection.py:38-39 | a named count beside a named percentage is never accepted |
| SampleSelectors.EveryTokenReads | micro_workflow_manager/sample_selection.py:28-40 | every token with an equals sign is a name and a text, with a percent sign or without |
| SampleSelectors.ParsedUnique | micro_workflow_manager/sample_selection.py:14-44 | whether a request is accepted and the reason for a refusal are determined by the request |
| SampleSelectors.SplitLast | micro_workflow_manager/sample_selection.py:28-29 | a token splits at its last equals sign and nowhere else |

## Left out

- FiberSteps.RefinesDirect: says nothing of a fiber with a timed-out or cancelled wait whose controller turns that into a different value; sequential execution has no such waits.
- FiberRuntimeClass.FiberRuntime.RunSource: covers runs of any finite number of turns; the clock, the limits and what a source gives are arbitrary functions of how often they were asked. Of a refreshable source, which may report changes for ever, `RunEnds` says nothing.
- FiberProgress.PumpEnds: clearing and rechecking the event, pruning lists and polls that wake nobody are not counted; how often they happen is up to the clock.
- FiberRuntimeClass.FiberRuntime: the runtime's fields, and those of the producer threads, are one record field of the class; waiter objects are entries of a table and heaps are sequences in pop order.
- The shortcut of `await_future` for a finished future, the zero-second sleep and the bridge patches act inside a controller and are part of its behaviour here.
- The pause for the state writer, the environment variables and the startup lane heuristics of the API runner.
- Exceptions of the fiber pump's limit provider or of a refreshable source's pull end a pump with fibers still active; the model only says that nothing was pulled.
- ElasticPool.Step: assumes that `worker_cleanup` does not raise; where it does, its worker is never taken out of the table and the manager's loop does not end.
- ShardManager.NetworkManager: shard objects, request records and counters are kept in one record; byte counts, durations, names and error texts are not modelled.
- Recovery reuse and creation counters, request tracing and the list of active requests for monitoring.
- Shutdown of the network manager, cancellation while a client is being closed, HTTP, TLS, compression and JSON decoding.
- ShardTheorems.ClampsNeverFire: assumes that closing a client does not raise. Where `aclose` raises, the release before a replay (manager.py:320, 341) reaches the outer handler with the shard still set: the failure is counted twice, the shard is released a second time, and there the clamp at zero acts.
- ShardPool.Step: a stall may end an attempt at any moment; that its test held at an earlier one belongs to the reading of the response, and `ShardTheorems.VerdictLasts` says what of it lasts.
- ResponseStream.Read: takes the verdict of the stall test as part of each event; `ShardTheorems.StallExactly` says what the test is.
- Lanes.AggregateBound: admission is bounded by the last share read; the admission arithmetic itself is in `FiberRuntimeClass.FiberRuntime.Admission`.
- ApiLimits.Allocate: names are integers, standing for strings of which only the order is used.
- Intervals.ExecutionComponents: the library's topological sort is modelled by one particular topological order.
- Graph shape snapshots, component predecessors and the JSON forms of the topology.
- ProcessRunner.JobSourceRun.RunJobSource: assumes the outcome callback does not raise; `run_jobs` of the process pool is not modelled.
- ProcessSchedules.WholeSourceExactly: for sources with a failing pull or job the run raises or stops as `RunJobSource` says.
- LineageRuns.StableAncestors: a component completes once; resetting a component belongs to the storage layer, which is not part of this model.
- Sampling.SelectSampleIds: the hash is any function of seed, node and identity.
- SampleSelectors.ParseSelectors: number parsing is any function on text.
- SQLite storage, recovery receipts, session admission, the node and component schedulers, the command line, monitors and rendering.
