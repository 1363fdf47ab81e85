# Fluxo, modelled and proved in Dafny

Fluxo is an embeddable workflow engine: it checkpoints the result of every step, replays an instance from its first step
after a crash, parks instances that wait for signals, and feeds workers from leased task queues. This project models its
hard core and proves what the parts promise together.

* **Engine.** `Workflow` and `Execution` say what one engine call does as an ordered list of effects (store writes,
  events, step calls, sleeps, lease renewals). `Engine` holds the imperative engine, its nested step and attempt loops
  and its entry points, proved to produce exactly those effects. `EngineRuns` lets a crash cut any call after any
  effect and proves what holds of every history of one instance; `Replay`, `Idempotence`, `Signals`, `Backoff` and
  `Registry` build on it; `Progress` says that the engine does something: how often a step is tried, and that work which
  can be done is done. `Deployment` is a whole store under engine processes that come and go, with new instances,
  registrations and restarts; `Lifetimes` proves when each instance in it has such a history, and `Hazards` what
  happens, and exactly when, if not.
* **Queues.** `LeaseQueue` is the one specification: a bag of tasks, each ready or leased. `MemoryQueue` (ready list and
  inflight map), `RedisQueue` (two sorted sets and three hashes under scripts) and `SqliteQueue` (one table, lazy expiry)
  are objects updated in place whose runs are proved to be runs of the specification. `MemoryOrder` adds identity and
  order, `Schedules` follows what a caller asks for to what a worker gets.
* **Worker.** `Worker` is ProcessOne over the in-memory queue and the heartbeat, `Heartbeats` the heartbeat over the
  other two queues; `Turns` says what a turn does for each way the engine's call can go; `Drain` is any number of workers sharing a lease queue; `Delivery` follows a start task from the
  queue through the worker into the store.
* **Instance leases and the Redis store.** `InstanceLease` reads a trace of lease calls; `LeaseStores.dfy` holds the
  in-memory timestamps and the Redis scripts; `RedisStore` holds the growing index sets and recovery over them.
* **Parallel.** `Parallel` is the interleaving machine behind ParallelStep and ParallelMapStep.

Time is an integer number of nanoseconds and is passed in; so are the answers of step functions and of the engine, the
failure of writes, the order in which Go ranges over a map, and the fingerprint function. Values that flow between steps are
opaque except for the wrapper types the engine looks into. `dafny verify dfyconfig.toml` checks everything.

Where the code and its promises disagree, the code is modelled and the exact boundary is proved:

* Instance ids are counted per process from one, so after a restart over Redis (which overwrites on save) a Run can take
  the id of a stored instance and drop its results (`Hazards.RestartReusesId`, `Hazards.ReuseCallsAgain`);
  `Hazards.RunKeepsStoredIff` is the exact rule, and `Deployment.AheadNeverReuses` and `Deployment.InsertOnlyNeverReuses`
  say where it cannot happen.
* RunInstance compares a definition with its own fingerprint, not with the one the instance records. After a restart with
  another definition under the same name and version it replays the instance under that one
  (`Hazards.ReplayUnderShorterDefinition`, `Hazards.ReplayCallsUnbound`; `Hazards.ReplayCallsBoundIff` and
  `Hazards.ReplaySoundIff` are the exact rules).
* A Redis lease is rounded down to a millisecond when a task is claimed, the heartbeat interval is not: below some leases
  a punctual heartbeat can lose its task (`Heartbeats.RedisHeartbeatSafeIff`).
* A worker that fails a task whose lease has passed to another enqueues a second copy under the same id
  (`Worker.RetryKeepsQueueValidIff`, `Worker.LateRetryDuplicates`).
* A Redis Nack by a worker that no longer holds the lease still rewrites the stored task
  (`RedisQueue.StaleNackRewritesAttempts`; `RedisQueue.NackRefinesIff` says exactly when a Nack meets the specification).
* In the SQLite table an empty owner name is indistinguishable from "not leased" (`SqliteQueue.ClaimRefinesIff`,
  `RenewRefinesIff`, `AckRefinesIff`, `NackRefinesIff`, and at concrete inputs `UnnamedCallers`).
* The in-memory instance lease excludes nobody for the owner "" (`MemoryLeases.EmptyOwnerExcludesNobody`;
  `MemoryLeases.MemoryAcquireIff` is the exact rule); in Redis the empty string is an owner like any other.
* A comment in the Redis store says that ListInstances filters by payload; it does not (`RedisStore.StaleListing`,
  `RedisStore.ListingExactIff`). Recovery is right all the same, because it checks the status itself.
* ParallelStep's comment announces a `[]any`; it returns one indexed record per child. The model keeps the value of each slot.
* A start task with a payload of the wrong type is neither acked nor nacked: `Drain.SettleLightens` shows that this, and only
  this, keeps a turn from making progress.

## Model

| member | source | states |
|---|---|---|
| EngineRuns.CheckpointInEveryPersistedState | internal/engine/engine_impl.go:658-851 | in every history of one instance under one definition (runs, crashes, resumes, signals, recoveries), every persisted state has results for exactly a prefix of the steps, CurrentStep within it, and a status that agrees: WAITING at the first missing step without an error, FAILED with one, COMPLETED with all results and the last one as output; Lifetimes says when a stored instance has such a history |
| EngineRuns.NoReexecution | internal/engine/engine_impl.go:673-682 | in such a history no effect after the persisting of a result calls that step, and the result never changes |
| EngineRuns.CompletedEventsClimb | internal/engine/engine_impl.go:748-762 | in such a history the step.completed indices strictly increase across all resumes and crashes |
| EngineRuns.ActionSound | internal/engine/engine_impl.go:318-613 | every engine call on an existing instance, from any steady durable state, produces a trace the monitor accepts |
| EngineRuns.ExecSound | internal/engine/engine_impl.go:658-851 | executeSteps from any step up to the checkpoint produces an accepted trace and ends in the status its outcome says |
| EngineRuns.SettleSound | internal/engine/engine_impl.go:728-838 | the last attempt at a step records the result, parks, or fails the instance, keeping the checkpoint |
| Replay.CrashReplayRefinement | internal/engine/engine_impl.go:658-851 | in such a history without signals, whatever crashes, failures and replays happen, a persisted COMPLETED instance has as output the plain composition of the steps on the original input, and every cached result is the composition's |
| Replay.FaithfulIsComposition | internal/engine/engine_impl.go:748-762 | results that each come from their step on the previous result are the composition |
| Idempotence.CacheTransparency | internal/engine/engine_impl.go:665-682 | executing from step i over a prefix cache of size k ends in the same instance and outcome as starting at step k with the last cached result, and differs in its trace only by the walk over the cache |
| Idempotence.RedeliveryIsIdempotent | internal/engine/engine_impl.go:318-346 | redelivering a COMPLETED instance any number of times, refusals and crashes included, calls no step and writes only the same work, and each accepted redelivery that runs to its end restores exactly the same instance |
| Idempotence.RedeliverOnce | internal/engine/engine_impl.go:841-850 | one full redelivery, from whatever runtime fields a crash left, writes only the same work and ends with the original instance |
| Signals.SignalRaceHasOneWinner | internal/engine/engine_impl.go:558-613 | over any sequence of deliveries to a step waiting for one signal or for any of several, the first decisive one alone fixes the step's result; before it the instance stays WAITING with its results, after it every delivery is refused without a change |
| Signals.OneDelivery | internal/engine/engine_impl.go:764-773 | a mismatch re-parks, the awaited signal fixes the result for good, a dead context fails the instance without a result |
| Signals.LosersChangeNothing | internal/engine/engine_impl.go:764-773 | deliveries that are not decisive leave the instance waiting at its step with its results |
| Signals.ForwardRunParks | pkg/api/workflow.go:120-172 | reached by ordinary execution a wait step parks exactly if its input is not a signal it awaits |
| Signals.RefusedUnlessWaiting | internal/engine/engine_impl.go:567-569 | deliveries to an instance that is not WAITING change nothing |
| Backoff.BackoffLaw | internal/engine/engine_impl.go:688-717 | in terms of the policy alone: the sleeps are min(cap, b * m^j), never shrink, are fewer than the attempts allowed, total at most that many times the cap, and no product formed exceeds max(b, cap) * m |
| Backoff.ClosedForm | internal/engine/engine_impl.go:808-837 | the looped backoff variable equals the capped power |
| Backoff.SleepsFollowBackoff | internal/engine/engine_impl.go:721-838 | for any multiplier: at most MaxAttempts calls, one fewer sleeps, the j-th sleep the capped j-th backoff |
| Progress.RetriedUntilItWorks | internal/engine/engine_impl.go:697-698 | a step whose policy allows n attempts survives any number of faults below n: the first call that works ends it with its value, after exactly one more call than faults |
| Progress.GivenUpAfterThePolicy | internal/engine/engine_impl.go:797-806 | a step that faults as often as its policy allows is given up after exactly that many calls, one sleep fewer, with the error of the last call |
| Progress.CalledOnceWithoutPolicy | internal/engine/engine_impl.go:686-698 | without a policy, or with one that allows no attempts, a step is called exactly once |
| Progress.ContextEndsBefore | internal/engine/engine_impl.go:722-732 | a context that ends before an attempt fails the step with the context's error, whatever the faults before said |
| Progress.ContextEndsAsleep | internal/engine/engine_impl.go:816-824 | so does one that ends in the sleep after a fault that would have been retried |
| Progress.PendingChildrenPark | internal/engine/engine_impl.go:775-792 | a step that joins child workflows parks the instance while they are pending |
| Progress.WorkingRunCompletes | internal/engine/engine_impl.go:658-851 | in a world that works, steps that only call out complete the workflow |
| Progress.ResumeStartsOver | internal/engine/engine_impl.go:544-555 | an accepted resume first resets the runtime fields and nothing else, and calls a step exactly if one without a result is left and the context is alive |
| Progress.ResumeIsReplay | internal/engine/engine_impl.go:544-555 | an accepted resume and an accepted RunInstance come to the same durable instance |
| Progress.SignalWakes | internal/engine/engine_impl.go:592-612 | an accepted signal wakes the instance where it waits with the signal as its input |
| Progress.CrashRecoverResume | internal/engine/engine_impl.go:465-556 | what a crash leaves RUNNING is failed by recovery with its results kept, and a resume in a world that works completes it |
| Progress.ExecAnnounces | internal/engine/engine_impl.go:797-850 | the completed event is emitted exactly by executions that finish, the failed event exactly by those that stop |
| Progress.ExecReleases | internal/engine/engine_impl.go:764-850 | an execution that finishes or parks gives the lease back as its last effect |
| Progress.LeasedCallsRelease | internal/engine/engine_impl.go:519-613 | a resume or a signal that has taken the lease always gives it back |
| Engine.EngineImpl.ExecuteSteps | internal/engine/engine_impl.go:658-851 | the nested loops append exactly the specified effects to the journal and return the specified instance and outcome |
| Engine.EngineImpl.RunAttempts | internal/engine/engine_impl.go:721-838 | the attempt loop's calls, sleeps, writes and verdict are the specified ones |
| Engine.Judge | internal/engine/engine_impl.go:742-830 | after each reply: retried exactly if attempts and context allow, otherwise the write, the events and the verdict of the settled step |
| Engine.EngineImpl.StartStep | internal/engine/engine_impl.go:684-720 | one uncached step: position written, started event, then its attempts |
| Engine.EngineImpl.constructor | internal/engine/engine_impl.go:98-120 | an engine starts with its id counter at zero over whatever instances the store holds |
| Engine.ReadPolicy | internal/engine/engine_impl.go:688-717 | the retry settings with the engine's defaults |
| Engine.DelayAndGrow | internal/engine/engine_impl.go:808-837 | the capped delay and the grown, capped backoff |
| Engine.EngineImpl.Run | internal/engine/engine_impl.go:164-203 | a RUNNING instance of the only registered version is saved under the next counted id, announced and executed, and what is returned is what is persisted, with the error of its status; if that id was unused every stored instance stays as it was; without a single version nothing happens |
| Engine.EngineImpl.RunInstance | internal/engine/engine_impl.go:318-346 | replay of any existing instance after its registry, fingerprint and lease checks; a definition whose fingerprint is not the computed one fails the instance; the returned instance is always the persisted one, no other instance changes; in a world that works a workflow of calls is COMPLETED |
| Engine.EngineImpl.ResumeInline | internal/engine/engine_impl.go:509-556 | a FAILED instance under a free lease and a bound definition is replayed and returned as persisted, with the error of its status, COMPLETED in a world that works if its steps only call out; any other call is refused, with its reason, and changes nothing |
| Engine.EngineImpl.SignalInline | internal/engine/engine_impl.go:558-613 | the same for a WAITING instance, continued at its step with the signal as input |
| Engine.EngineImpl.SignalQueued | internal/engine/engine_impl.go:432-463 | a WAITING instance has the signal noted as its input, stays WAITING, and a signal task is handed to the queue, whose refusal is reported; any other instance is refused unchanged |
| Engine.EngineImpl.RegisterWorkflow | internal/engine/engine_impl.go:130-162 | the answer and the table of a registration |
| Progress.ExecEnds | internal/engine/engine_impl.go:658-851 | the instance executeSteps returns is the last one it wrote, and its error is the one its status stands for |
| Engine.TakenIff | internal/engine/engine_impl.go:318-590 | resume, signal and RunInstance are taken exactly under their status, lease, registry and fingerprint conditions |
| Engine.CallMovesOneInstance | internal/engine/engine_impl.go:318-613 | cut at any moment, a call has changed only its own instance in the store, to the last one it wrote |
| Engine.CallsOnlyWhenBound | internal/engine/engine_impl.go:540-542 | resume and signal call steps only of the definition registered under the instance's name and version, only if the instance records its fingerprint or none, and that definition stays registered |
| Registry.WorkflowStore.SaveWorkflow | internal/persistence/memory_store.go:35-49 | accepted exactly if the version is new; nothing is ever overwritten |
| Registry.WorkflowStore.GetWorkflow | internal/persistence/memory_store.go:51-66 | the definition under name and version, or none |
| Registry.WorkflowStore.GetLatestWorkflow | internal/persistence/memory_store.go:68-84 | a definition exactly if one version is registered, and then that one |
| Registry.FirstAcceptedForever | internal/persistence/memory_store.go:35-49 | a registered definition survives every later save |
| Registry.RegistersWhatItIsGiven | internal/engine/engine_impl.go:130-162 | a version not there yet (an empty one counting as "v1") is accepted and found under its name and version with the given steps and the given or computed fingerprint; every other lookup is as before |
| Registry.RegisteredAlready | internal/engine/engine_impl.go:148-157 | a version already there stays as it is, and is taken for the same exactly if the fingerprints agree |
| Registry.RegistrationBinds | internal/engine/engine_impl.go:130-162 | with others saving before, during and after: success binds name and version to this fingerprint forever, a mismatch never becomes the registered definition |
| Deployment.AheadNeverReuses | internal/engine/engine_impl.go:615-620 | a process whose id counter is past the stored ids, one over an empty store included, never begins an instance under a stored id, over any history |
| Deployment.AheadAfterRestartIff | internal/engine/engine_impl.go:98-120 | after a restart the counter is past the stored ids exactly if no counted id is stored |
| Deployment.InsertOnlyNeverReuses | internal/persistence/sqlite_store.go:77-96 | over a store that only inserts no history replaces a stored instance |
| Deployment.DeedWrites | internal/engine/engine_impl.go:164-613 | whatever a process does, each write goes to the instance it is about, under its own id, name, version and fingerprint |
| Deployment.RestOfLife | internal/engine/engine_impl.go:318-613 | the part of the journal about a stored instance is a history of episodes under its definition |
| Lifetimes.StoryOf | internal/engine/engine_impl.go:164-613 | over any history of new instances, calls, registrations and restarts, the part of the journal about one instance is one Life, of the definition the registry held and the input given at the deed that began it, if its id is not reused and its replays are true to that definition |
| Lifetimes.InstanceKeepsPromises | internal/engine/engine_impl.go:164-851 | such an instance keeps checkpoints, is never re-executed and completes steps in climbing order under the very definition its beginning deed found, and computes the composition of that definition's steps on that deed's input if no signal reaches it or nothing in it waits |
| Lifetimes.OneRegistryIsLoyal | internal/engine/engine_impl.go:130-162 | within one process every call finds the definition the instance was begun with, through all registrations |
| Lifetimes.OneProcessKeepsPromises | internal/engine/engine_impl.go:130-851 | within one process whose counter is past the stored ids, every instance it begins keeps these promises, under the definition and input of its beginning deed, with no further condition |
| Lifetimes.BoundIffSameDefinition | internal/engine/engine_impl.go:540-542 | the fingerprint check of resume and signal passes exactly for the definition the instance was begun with, if fingerprints tell definitions apart |
| Lifetimes.TrueToIff | internal/engine/engine_impl.go:322-336 | a call is refused or runs the instance's own definition: always for resume and signal, for RunInstance exactly if it is refused or what it finds is bound, which it does not check |
| Lifetimes.RestartsKeepPromises | internal/engine/engine_impl.go:130-851 | over any number of restarts with any registrations every instance keeps these promises, under the definition and input of its beginning deed, if its id is not reused (it cannot be over an inserting store) and accepted calls of RunInstance find bound definitions |
| Hazards.RunKeepsStoredIff | internal/engine/engine_impl.go:164-203 | Run leaves every stored instance as it was, at every moment, exactly if the id it draws is unused |
| Hazards.ReuseCallsAgain | internal/engine/engine_impl.go:177-202 | whenever a stored id is reused, the first write drops the stored results and the first step is called again |
| Hazards.RestartReusesId | redis/engine.go:19-29 | a history from the empty store: register, run, restart, register again; the next Run is "wf-1" again, drops the stored result and calls its step again |
| Progress.ExecCallsIff | internal/engine/engine_impl.go:673-740 | executeSteps calls a step exactly if one without a cached result is left and the context is alive |
| Hazards.ReplaySoundIff | internal/engine/engine_impl.go:318-346 | a replay by RunInstance writes only checkpoints of the definition it found exactly if that has at least as many steps as there are results |
| Hazards.ReplayCallsBoundIff | internal/engine/engine_impl.go:318-346 | RunInstance calls only steps of a bound definition exactly if it is refused, or what it found is bound, or no step is left, or the context is done |
| Hazards.ReplayUnderShorterDefinition | internal/engine/engine_impl.go:322-346 | a history from the empty store with two definitions that fingerprints tell apart: completed under two steps, redelivered after a restart under one, the instance ends COMPLETED with more results than steps |
| Hazards.ReplayCallsUnbound | internal/engine/engine_impl.go:322-346 | the other way round: a redelivery that calls a step of a definition the instance is not bound to |
| LeaseQueue.Conservation | internal/taskqueue/inmemory_queue.go:143-184 | the tasks held are those there at first plus those enqueued less those acked by their lease owner, for every queue meeting the specification |
| LeaseQueue.NeverLost | internal/taskqueue/inmemory_queue.go:143-157 | a task leaves the queue only through an Ack by the recorded owner of its lease |
| LeaseQueue.NotBeforeRespected | internal/taskqueue/inmemory_queue.go:88-105 | no delivery before the schedule the task was enqueued or given back with, and it is delivered as it stands, unless its lease holder acked or rescheduled it in between |
| LeaseQueue.LeaseStands | internal/taskqueue/inmemory_queue.go:76-118 | until its expiry an untouched lease stands and the task is delivered to no one |
| LeaseQueue.DeliveredAgain | internal/taskqueue/inmemory_queue.go:76-118 | between two deliveries of a task the first taker acted on its lease or let it run out |
| LeaseQueue.HeartbeatKeepsLease | pkg/worker/worker.go:211-244 | punctual renewals at an interval of at most half the lease keep the task from everyone else |
| LeaseQueue.ClaimKept | pkg/worker/worker.go:211-244 | the same from the dequeue on that claimed the task |
| MemoryQueue.MemoryRunRefines | internal/taskqueue/inmemory_queue.go:46-178 | every run of the list-and-map queue is a run of the lease queue, seen alike by its callers, the delivered tasks included |
| MemoryQueue.LenConserved | internal/taskqueue/inmemory_queue.go:180-184 | Len is what was there plus enqueued less acked, through sweep, claim, Nack and expiry |
| MemoryQueue.DequeueRefines | internal/taskqueue/inmemory_queue.go:76-118 | sweep, scan and claim deliver a free, due task as it stands; nothing is found only if nothing is deliverable |
| MemoryQueue.NackRefines | internal/taskqueue/inmemory_queue.go:159-178 | Nack moves a task back with its new schedule, only for the lease owner |
| MemoryQueue.InMemoryQueue.Enqueue | internal/taskqueue/inmemory_queue.go:46-62 | the task goes to the end of the ready list, named if it had no id; a done context changes nothing |
| MemoryQueue.InMemoryQueue.Sweep | internal/taskqueue/inmemory_queue.go:80-86 | in whatever order the map yields them, exactly the lapsed leases go back to the ready list |
| MemoryQueue.InMemoryQueue.TryDequeue | internal/taskqueue/inmemory_queue.go:64-120 | one pass of the polling loop: the first runnable task is leased |
| MemoryQueue.InMemoryQueue.RenewLease | internal/taskqueue/inmemory_queue.go:122-141 | each refusal and the extended expiry |
| MemoryQueue.InMemoryQueue.Ack | internal/taskqueue/inmemory_queue.go:143-157 | removal by the owner; idempotent when the task is not inflight; refused to others |
| MemoryQueue.InMemoryQueue.Nack | internal/taskqueue/inmemory_queue.go:159-178 | return to the ready list by the owner |
| MemoryOrder.GeneratedIdIsFresh | internal/taskqueue/inmemory_queue.go:56-59 | if all tasks came with empty ids, the next generated id is unused |
| MemoryOrder.AutoNamedKept | internal/taskqueue/inmemory_queue.go:46-178 | every operation keeps all ids among the generated ones |
| MemoryOrder.FirstDeliveriesInOrder | internal/taskqueue/inmemory_queue.go:76-118 | of two unscheduled tasks the later one is never delivered before the earlier one has been, over any mix of operations |
| RedisQueue.RedisRunRefines | redis/internal/taskqueue/redis_queue.go:50-315 | every run of the five-structure queue, with unused ids and Nack by lease holders, is a run of the lease queue, the delivered tasks included |
| RedisQueue.NackRefinesIff | redis/internal/taskqueue/redis_queue.go:282-315 | Nack meets the specification exactly if it comes from the holder, names no stored task, or changes nothing |
| RedisQueue.StaleNackRewritesAttempts | redis/internal/taskqueue/redis_queue.go:282-315 | a run from the empty queue in which worker-1 takes a task, its lease lapses, worker-2 takes it, and worker-1's Nack rewrites it under worker-2's lease |
| RedisQueue.AckRefines | redis/internal/taskqueue/redis_queue.go:187-210 | the ack script removes the task from all five structures, for the holder only |
| RedisQueue.RenewRefines | redis/internal/taskqueue/redis_queue.go:238-254 | the renew script moves the expiry of the holder's lease and nothing else |
| RedisQueue.First | redis/internal/taskqueue/redis_queue.go:146-185 | the least member of a sorted set by score, then by name |
| RedisQueue.RangeByScore | redis/internal/taskqueue/redis_queue.go:146-185 | the first members up to a score, in order, up to the limit |
| RedisQueue.RedisQueue.Enqueue | redis/internal/taskqueue/redis_queue.go:50-74 | payload, schedule and ready score are stored under the task's id |
| RedisQueue.RedisQueue.SweepExpired | redis/internal/taskqueue/redis_queue.go:146-185 | the expired members return to the ready set at their own schedule |
| RedisQueue.RedisQueue.TryDequeue | redis/internal/taskqueue/redis_queue.go:77-185 | one poll: up to a hundred lapsed leases swept, the least due member leased, its stored payload returned under its id |
| RedisQueue.RedisQueue.Nack | redis/internal/taskqueue/redis_queue.go:212-315 | the payload is rewritten first, then the script releases the task if the caller holds it |
| SqliteQueue.SqliteRunRefines | internal/taskqueue/sqlite_queue.go:59-225 | every run of the table with named callers is a run of the lease queue, each task enqueued as and for when its caller says, the delivered tasks included |
| SqliteQueue.ClaimRefinesIff | internal/taskqueue/sqlite_queue.go:90-179 | a claim is a lease-queue dequeue exactly if the owner has a name |
| SqliteQueue.RenewRefinesIff | internal/taskqueue/sqlite_queue.go:181-199 | a renewal meets the specification exactly unless an unnamed caller meets an unleased row |
| SqliteQueue.AckRefinesIff | internal/taskqueue/sqlite_queue.go:201-212 | the same for the deleting Ack |
| SqliteQueue.NackRefinesIff | internal/taskqueue/sqlite_queue.go:214-225 | the same for the releasing Nack, unless it changes nothing |
| SqliteQueue.UnnamedCallers | internal/taskqueue/sqlite_queue.go:90-212 | from the empty table: a claim by "" leaves the task free for the next caller, an Ack by "" deletes a task no one holds |
| SqliteQueue.SqliteQueue.Select | internal/taskqueue/sqlite_queue.go:90-179 | the claimable row with the least schedule, then the least number; none only if no row is claimable |
| SqliteQueue.SqliteQueue.TryDequeue | internal/taskqueue/sqlite_queue.go:90-179 | that row is leased to the caller and returned as the task it stands for |
| Schedules.MemoryEnqueueHonoured | internal/taskqueue/inmemory_queue.go:46-62 | in any run a task its caller enqueues for x is delivered no earlier, and as it was enqueued, until its holder settles it |
| Schedules.MemoryNackHonoured | internal/taskqueue/inmemory_queue.go:159-178 | a task its holder gives back for x is delivered no earlier, with the attempts given |
| Schedules.RedisEnqueueHonoured | redis/internal/taskqueue/redis_queue.go:50-74 | the same for Redis |
| Schedules.RedisNackHonoured | redis/internal/taskqueue/redis_queue.go:282-315 | the same for Redis |
| Schedules.SqliteEnqueueHonoured | internal/taskqueue/sqlite_queue.go:59-88 | the same for the SQLite table, with the caller's job and attempts |
| Schedules.SqliteNackHonoured | internal/taskqueue/sqlite_queue.go:214-225 | the same for the SQLite table |
| Worker.Worker.constructor | pkg/worker/worker.go:71-91 | each setting, or its default if it is not set |
| Worker.Worker.HandleErr | pkg/worker/worker.go:175-207 | ack on success, nack with one more attempt while any is left, else ack; the refused ack, the fallback after a refused nack and the returned error are those of the source |
| Worker.Worker.Process | pkg/worker/worker.go:246-330 | a claimed task is settled as decided, and the engine's error is returned exactly if the task is given up for it |
| Worker.Worker.ProcessOne | pkg/worker/worker.go:163-331 | a whole turn: claim, engine call, then ack, nack, or arm a timeout and ack; with the processed flag and the returned error |
| Worker.RetryKeepsQueueValidIff | pkg/worker/worker.go:186-200 | giving a task back keeps every id in one place exactly if the lease has not passed to another worker; the fallback then enqueues a second copy |
| Worker.LateRetryDuplicates | pkg/worker/worker.go:186-200 | a run from the empty queue that gets there: a worker takes a task, its lease lapses, another takes it, the first retries, and the task is in the queue twice |
| Turns.TimeoutArmed | pkg/worker/worker.go:266-284 | a turn whose start task comes to wait for a signal, with a default timeout configured: the task is gone, every other is as it was but for lapsed leases, and exactly one new unleased task is there, a timeout for that instance and signal, due when the timeout has passed |
| Turns.TimeoutNotEarly | pkg/worker/worker.go:266-284 | in any later run no dequeue delivers that timeout before that instant |
| Turns.FailedTaskComesBack | pkg/worker/worker.go:183-203 | a failing task with attempts left is back, unleased, with one more attempt, due after the configured backoff |
| Turns.FailedTaskGivenUp | pkg/worker/worker.go:204-206 | a failing task without attempts left is gone |
| Turns.DoneTaskLeaves | pkg/worker/worker.go:175-182 | a task that succeeds is gone, and so is a timeout or a task of unknown type whatever the engine says |
| Turns.BadPayloadStaysLeased | pkg/worker/worker.go:248-251 | a start task with a payload of the wrong type stays leased to the worker |
| Turns.ReportsIff | pkg/worker/worker.go:175-330 | an error is returned exactly for a bad payload, an unknown type or a task given up as failed |
| Turns.TriedExactly | pkg/worker/worker.go:183-206 | a task that always fails, alone in the queue, is tried exactly MaxAttempts times |
| Worker.HeartbeatInterval | pkg/worker/worker.go:211-227 | two intervals fit into the lease exactly if the lease is at least two nanoseconds; a configured interval between the minimum and half the lease is taken as it is, a third of the lease without one |
| Worker.HandlerKeepsItsTask | pkg/worker/worker.go:211-244 | with that interval and each renewal less than one interval late, no dequeue by anyone returns the task until the handler stops |
| Heartbeats.SqliteHandlerKeepsItsTask | pkg/worker/worker.go:211-244 | the same over the SQLite table |
| Heartbeats.RedisHandlerKeepsItsTask | pkg/worker/worker.go:211-244 | the same over Redis, if two intervals fit into the lease rounded down to a millisecond |
| Heartbeats.RedisHandlerLosesItsTask | redis/internal/taskqueue/redis_queue.go:91-98 | if they do not fit, a run from the empty queue with a punctual heartbeat in which another worker gets the task |
| Heartbeats.RedisHeartbeatSafeIff | redis/internal/taskqueue/redis_queue.go:91-98 | on Redis every punctual heartbeat keeps its task exactly if two intervals fit into the rounded lease |
| Drain.DrainInvariant | pkg/worker/worker.go:175-207 | over any interleaving of any workers, whatever the engine answers: attempts stay below the maximum, tasks in hand are leased to their worker, and weight plus settlements never exceeds the initial weight plus what was submitted |
| Drain.DrainTerminates | pkg/worker/worker.go:163-331 | the tasks dealt with plus those left never outnumber the initial weight plus what was submitted |
| Drain.DrainEmpties | pkg/worker/worker.go:163-331 | a worker alone on the in-memory queue empties it, timeouts it armed included, within as many calls as the queue weighs |
| Drain.SettleLightens | pkg/worker/worker.go:246-330 | dealing with a held task makes the queue lighter if and only if its payload is well typed |
| Drain.TurnIsTakeAndSettle | pkg/worker/worker.go:163-331 | a turn on the in-memory queue is a take and a settlement of the system of workers |
| Delivery.CleanAckIff | pkg/worker/worker.go:253-294 | a start task is acked without an error exactly if the engine took the call and the stored instance is COMPLETED |
| Delivery.CleanlyAckedLeaves | pkg/worker/worker.go:163-294 | the turn that acks it takes it from the in-memory queue |
| Delivery.AckedStartStaysDone | internal/engine/engine_impl.go:318-346 | in any history, after a clean ack the start task may be redelivered any number of times: no step of the instance is called any more and every write keeps its results, input and identity |
| InstanceLease.AtMostOneOwner | internal/persistence/memory_store.go:155-212 | over any trace at most one owner has an unexpired, unreleased lease on an instance |
| InstanceLease.AcquireSucceedsIff | internal/persistence/memory_store.go:155-175 | an acquire succeeds exactly if no other owner has an unexpired, unreleased lease |
| InstanceLease.StoreKnowsGrants | internal/persistence/memory_store.go:155-212 | what the store holds is what the calls so far have granted |
| MemoryLeases.MemoryAcquireIff | internal/persistence/memory_store.go:155-212 | the in-memory store: succeeds exactly if no other owner with a name has a live lease |
| MemoryLeases.MemoryLeasesRefine | internal/persistence/memory_store.go:155-212 | its runs are runs of the lease specification in which "" is nobody |
| MemoryLeases.EmptyOwnerExcludesNobody | internal/persistence/memory_store.go:169-173 | a trace in which "" and another owner both have live leases |
| MemoryLeases.InMemoryLeases.TryAcquireLease | internal/persistence/memory_store.go:156-176 | answer and new lease; unknown instances are refused |
| MemoryLeases.InMemoryLeases.RenewLease | internal/persistence/memory_store.go:178-195 | the recorded owner, and only it, moves the expiry |
| MemoryLeases.InMemoryLeases.ReleaseLease | internal/persistence/memory_store.go:197-212 | the owner clears the lease; others are refused |
| RedisLeases.RedisAcquireIff | redis/internal/persistence/redis_store.go:278-326 | the Redis scripts: succeeds exactly if no other owner at all has a live lease |
| RedisLeases.RedisLeasesRefine | redis/internal/persistence/redis_store.go:278-326 | their runs are runs of the lease specification |
| RedisLeases.RedisLeases.TryAcquireLease | redis/internal/persistence/redis_store.go:329-347 | answer and new key; a lease below a millisecond is an error on a free key and ends the caller's own |
| RedisLeases.RedisLeases.RenewLease | redis/internal/persistence/redis_store.go:349-370 | only the owner of a live key extends it |
| RedisLeases.RedisLeases.ReleaseLease | redis/internal/persistence/redis_store.go:372-397 | only the owner of a live key removes it; a missing key is no error |
| RedisStore.IndexIsHistory | redis/internal/persistence/redis_store.go:78-123 | an instance is in a status index exactly if some write of it with that status reached the indexes |
| RedisStore.ListingIsHistory | redis/internal/persistence/redis_store.go:138-194 | after any writes a listing returns exactly the stored instances that were once indexed under every name and status the filter gives, or at all if it gives none |
| RedisStore.PayloadIsLastWrite | redis/internal/persistence/redis_store.go:78-123 | the payload is that of the last write that got through |
| RedisStore.IndexCovers | redis/internal/persistence/redis_store.go:78-123 | while no index write is lost, each status index holds every instance in that status |
| RedisStore.ListingExactIff | redis/internal/persistence/redis_store.go:138-194 | a listing by status is exact if and only if indexed instances never left the status and those in it were indexed |
| RedisStore.StaleListing | redis/internal/persistence/redis_store.go:109-123 | two ordinary writes after which a listing of RUNNING returns a COMPLETED instance |
| RedisStore.RedisInstanceStore.Write | redis/internal/persistence/redis_store.go:78-123 | payload overwritten, three indexes grown if that write gets through, nothing at all if the payload write fails |
| RedisStore.RedisInstanceStore.ListInstances | redis/internal/persistence/redis_store.go:138-194 | each candidate of the filter with a payload is returned once, as stored |
| RedisStore.RecoverStuckInstances | internal/engine/engine_impl.go:465-492 | exactly the listed RUNNING instances become FAILED, the count is exact, all others are unchanged; on a lost write exactly those counted |
| RedisStore.RecoveryOverStaleIndex | internal/engine/engine_impl.go:465-492 | over any history without lost index writes, recovery sees exactly the RUNNING instances, stale entries or not |
| RedisStore.RecoveryCompleteIff | internal/engine/engine_impl.go:465-492 | no RUNNING instance is left exactly if every RUNNING one had been indexed |
| RedisStore.RecoveryIsFinal | internal/engine/engine_impl.go:465-492 | after any history without lost index writes, a successful recovery continues the history to a store without RUNNING instances and with all others as they were, and a second one counts nothing and changes nothing |
| Parallel.SuccessIsScheduleIndependent | pkg/api/workflow.go:361-430 | over all interleavings, an end without error has every slot filled with its own child's value, in order |
| Parallel.ErrorIsGenuine | pkg/api/workflow.go:395-415 | the error is that of a child that really failed or panicked, never the cancellation it induced; only a cancelled parent makes it a cancellation |
| Parallel.FailsIffAChildFails | pkg/api/workflow.go:361-430 | with the parent left alone, a schedule ends in an error exactly if some child really fails |
| Parallel.FirstErrorStands | pkg/api/workflow.go:375-415 | the first error is never replaced |
| Parallel.FailureStopsOthers | pkg/api/workflow.go:400-412 | once a failed child has cancelled, no sibling not yet called is called any more |
| Parallel.ErrorHasCancelled | pkg/api/workflow.go:393-412 | a schedule that ends in a child's error has cancelled the context its siblings see |
| Parallel.SchedulesAreFinite | pkg/api/workflow.go:446-512 | no schedule is longer than five steps a child and one cancellation |
| Parallel.NeverStuck | pkg/api/workflow.go:446-512 | until all children are done some goroutine can move |

## Left out

- Signal durability across a crash: a replay starts at step 0, so a wait step after the first gets the previous result instead of the stored signal. Nothing is claimed about it; `Replay.CrashReplayRefinement` is stated for histories without delivered signals or definitions without waits.
- Backoff.BackoffLaw: whole multipliers in exact arithmetic; floating-point rounding of the product is not modelled (other multipliers are covered by `Backoff.SleepsFollowBackoff` over exact reals).
- Failing writes of the engine to its store: executeSteps ignores their errors, and the histories take every write as done; a crash is modelled instead, between any two effects.
- Aliasing: the in-memory store hands out pointers to its own instances, so a change before a write is already visible; instances are values here.
- Two engine calls interleaved on one instance: each call is one unit that a crash may cut; lease availability is a parameter of the call, and exclusion is stated for the lease stores alone.
- Start, StartVersion, RunVersion, Resume and GetInstance as methods of the engine: the same building blocks. Their new instances are in the histories, PENDING for Start, without the enqueued event of Start and with the started event that RunVersion leaves out.
- Lifetimes.RestartsKeepPromises: takes fingerprints to tell the definitions of a deployment apart. The strict fingerprint hashes names, step names, retry settings and function names, so two definitions that differ only in what a closure has captured (two waits for different signals under one step name, say) share it, and a restart that swaps them goes unnoticed.
- Several engine processes at once over one store: processes follow one another; each draws ids and keeps a registry of its own.
- Waiting for child workflows: such a step is an oracle that may ask to be parked; scheduling of polls is done by no code.
- IfStep, SwitchStep, WhileStep, LoopStep and the typed wrappers: step functions like any other to the engine, and easy ones.
- The blocking poll loops of the queues: each Dequeue is one pass at a time given to it; cancellation while polling returns without a change.
- RedisQueue.RedisQueue.Nack: the read, the rewrite of the payload and the script are one step, though they are separate commands.
- Redis leases last whole milliseconds: a task or instance lease is granted for its time to live rounded down to a millisecond, and exclusion is stated for the time granted.
- Parsing task ids as row numbers in the SQLite queue, random ids, and the width of the id counters.
- Drain.DrainEmpties: each call comes when the tasks in the queue have become due, and leases do not lapse during a turn.
- The Postgres and Mongo queues: the first deletes on dequeue and the second lets an owner reclaim its live lease, so neither is a lease queue in this sense.
- Instance leases of the SQLite and Postgres stores: an update rewrites their lease columns from the caller's copy.
- Encoding of values, fingerprint hashing, observers, logging, metrics, builders, the local runner and HTTP.
- Parallel.SuccessIsScheduleIndependent: ParallelStep without children passes its input through, and ParallelMapStep refuses an input that is not a slice; these guards are outside the machine.
