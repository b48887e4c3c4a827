# TaskTiger: the task store, the worker protocol and the queue names

TaskTiger is a distributed task queue whose whole state lives in Redis. Every change is one Lua script or one MULTI
block, so a running system is a set of users, workers and maintenance passes that interleave between those atomic
changes. This project models that state and those changes, and proves what the system promises over whole runs.

How the model is built:

- **The store.** `TaskDb` has the data as a value - four families of sorted sets, four index sets of queue names, one
  record per id, an execution list and a counter per id - and one function per script or MULTI block. `SortedSets` has
  the sorted sets in (score, member) order. `RedisStore.Store` is the server itself: it runs the scripts command by
  command, with their loops, and every script is proved to make exactly the change of the function.
- **What the scripts mean.** `ScriptLaws` proves the simple reading of `move_task` and `zpoppush`, `ExpiryLaws` that the
  listing of expired tasks is complete and that passes drain. `Meanings` and `StepMeanings` say, id by id, where each
  operation and each step leaves an id and at which score.
- **The protocol.** `Protocol` is a transition system over the store: delay, retry, cancel, delete, reschedule, pop,
  load, lock miss, begin, heartbeat, failure, finish, death, the scheduling pass, and an expiry pass in separate list,
  load, check and move steps. A run is any sequence of enabled steps from the empty store. `Invariants`, `Steps` and
  `Effects` prove what each step keeps, and `Runs`, `Requests`, `Timing`, `Fairness`, `History`, `RetryRuns` and
  `PeriodicTasks` the theorems about runs; `ExpiryRuns` has the runs that show what goes wrong without their conditions.
- **One worker.** `Workers.Worker` is `_process_from_queue` and what it calls, statement by statement, with other
  processes free to change the store in any way between two commands of it. `Batches` has the grouping by function and
  `Decisions` the retry decision. `WorkerSteps` proves that the commands of this worker are steps of the protocol.
- **The queue semaphore** (`Semaphores`), **queue names** (`QueueNames`), **the glob prefilter** (`GlobFilter`),
  **retry delays** (`Retry`) and **periodic schedules** (`Schedule`).

Premises, each of which the code depends on:

- An id lives in one queue, and its `unique` flag and its limit on stored executions never change: records are keyed by
  the id alone, but a move looks at one queue's sets only (`Protocol.Params`, `Protocol.Fits`).
- A non-unique id is delayed once: its removal deletes the record unconditionally (`Protocol.Enabled`). Ids are derived
  injectively from name and arguments, or random; being 64 hexadecimal digits they are modelled as numbers.
- A live worker refreshes every id it holds before ACTIVE_TASK_UPDATE_TIMEOUT is over (`Invariants.Timely`; with
  batches this suits batches of one function, as only the group being executed is refreshed), and one expiry pass runs
  at a time. Only the theorems said to be about timely runs use this,
  and it follows from heartbeats that come in time (`Timing.BeatsMakeTimely`). Clock readings are positive and not in the future
  of the shared clock; they may be old when a script runs.
- Scripts and MULTI blocks are atomic, and the locks of redis-py are leases that one process holds at a time.
- Periodic tasks are unique, and their batch size is 1.

Where the code and its documentation differ, the model follows the code:

- README.rst:273-277 says that similar unique tasks may be executed at the same time. The pop parks the id in SCHEDULED
  when it is already active (tasktiger/worker.py:555-579), and `Runs.ExclusiveProcessing` holds.
- tasktiger/worker.py:381 suggests that scanning the parts of a queue name in reverse and stopping would give the same
  batch size. For names that end in a dot it would not (`QueueNames.ReverseScanAgrees`, `QueueNames.TrailingDotMissed`).
- `Task.from_id` promises None for a missing task and raises TaskNotFound, and it takes a score of 0 for a missing one.
- `_periodic` returns a start date even if it lies after the end date (`Schedule.PeriodicEnds`).

Four properties are false of the code without a condition. Each has its exact condition and a concrete failure:

- Index sets stop agreeing with the sorted sets exactly at a heartbeat that names ids of a queue without any active task
  (`ScriptLaws.HeartbeatIndexExact`, `Runs.StepIndexExact`). A worker that is late with its heartbeat does this after an
  expiry pass has taken its only task (`ExpiryRuns.LateHeartbeatBreaksIndex`, a run); timely workers never do.
- A waiting task is moved back exactly if something that is queued sorts before it by (score, id)
  (`Fairness.StepKeepsPlaceExactly`). An expiry pass does this, even with timely workers, as it queues with the time of
  its listing (`ExpiryRuns.ExpiryMayOvertake`, a run). It does not happen if what enters the queue after the task is
  given a later time, which a clock that is read together with each script guarantees
  (`Fairness.ClockGivesLaterArrivals`).
- The history of a failed task is deleted exactly by a step that takes the task out of its queue for good although it is
  not unique, or although the script does not find it in the error set (`History.StepKeepsHistoryExactly`). The
  heartbeat of a late worker, whose task a pass has failed, leads to this (`ExpiryRuns.LateFinishDropsHistory`, a run);
  in timely runs it does not happen to a task that stays in ERROR.
- Setting a system lock leaves the worker locks their full time exactly if each of them ends within its timeout plus 10
  seconds (`Semaphores.SystemTimeoutIsExact`); for a lock that was just granted this is the premise that the timeout plus
  10 seconds is at least the lock timeout (`Semaphores.FreshLockNeedsCover`).

## Model

| member | source | states |
|---|---|---|
| Runs.ExclusiveProcessing | tasktiger/worker.py:460-597 | in every state of every timely run no two live workers hold the same id, and a held id is in ACTIVE |
| Runs.OnlyAbandonedTasksExpire | tasktiger/worker.py:283-343 | the move of an expiry pass, however long after its listing, finds its task active and held by no live worker, and takes it to QUEUED or ERROR; the removal branch is never taken |
| Runs.NoDanglingIds | tasktiger/task.py:404-417 | every id in any sorted set, in every state of a timely run, is in its own queue and has the record its latest delay wrote, up to scheduled_at |
| Runs.RecordsAreFound | tasktiger/worker.py:469-504 | in timely runs the "not found" and "ID mismatch" branches are unreachable: every load of a batch or of an expired task succeeds, and update_scheduled_time never meets a missing record |
| Runs.ExpiredTasksAreHandled | tasktiger/worker.py:311-343 | in every state of a timely run, every expired task is one that an expiry pass can take out of ACTIVE |
| Runs.HeldTasksAreFound | tasktiger/worker.py:656-662 | in timely runs a worker's own move of a task it holds, after a lock miss or a run, never raises TaskNotFound |
| Runs.IndexSetsAgree | tasktiger/redis_scripts.py:108-132 | up to any state of any run, a queue is always in a state's index set exactly if its sorted set is not empty, if and only if every heartbeat so far named no id or found an active task in its queue |
| Runs.StepIndexExact | tasktiger/worker.py:427-434 | of all steps only a heartbeat can break the agreement, and it does exactly if it names ids of a queue that has no active task |
| Runs.TimelyBeatsAreActive | tasktiger/worker.py:427-434 | timely workers never do that: their heartbeats name active ids only |
| Timing.BeatsMakeTimely | tasktiger/worker.py:427-434 | a run is timely if no worker lets the timeout pass after its pop of a task or its last heartbeat that names it |
| Timing.BeatRenewsLease | tasktiger/worker.py:427-434 | after a heartbeat, and until something moves the task, no listing with a time less than the timeout later names it |
| Timing.NotQueuedBeforeDue | tasktiger/worker.py:188-208 | an id that is delayed for a later time, and given no other, enters QUEUED no earlier than that time unless something other than the scheduling pass queues it |
| Requests.RequestIsKept | tasktiger/redis_scripts.py:81-106 | in any run, however an id came to be QUEUED or SCHEDULED, it stays so in every later state unless a step in between handed it to a worker or cancelled it |
| Requests.NoLostRequest | tasktiger/task.py:404-417 | in particular from each of its delays on |
| Requests.HandedOverIsHeld | tasktiger/worker.py:565-580 | a popped id is active, no longer queued, and held by the worker that popped it |
| Requests.StepKeepsRequest | tasktiger/redis_scripts.py:81-106 | no single step other than a pop that returns the id or its cancellation takes a queued or scheduled id out of both sets |
| Requests.StepKeepsSchedule | tasktiger/worker.py:188-208 | an id leaves SCHEDULED only by cancellation or in a pass at a clock at or after its score, and only its own failed run or update_scheduled_time raises that score |
| Requests.NeverPushedBack | tasktiger/redis_scripts.py:34-49 | over a run, an id that stays scheduled and is not rescheduled has a score that never rises |
| Fairness.PopServesFirst | tasktiger/redis_scripts.py:66-95 | a pop of b leaves an id queued exactly if its rank is at least b, and then its rank falls by b |
| Fairness.StepKeepsPlaceExactly | tasktiger/redis_scripts.py:93-100 | a step that does not pop from the queue leaves a waiting id there, and raises its rank exactly if something it queues sorts before it and did not before |
| Fairness.OnlyRetryReenters | tasktiger/task.py:604-611 | a waiting id is given a new score only by its own retry from ERROR |
| Fairness.QueuedSince | tasktiger/task.py:381-414 | the score of a queued id is the clock reading of the step that last queued it, and it has been queued ever since |
| Fairness.LaterArrivalsKeepOrder | tasktiger/redis_scripts.py:93-100 | if what enters the queue while an id waits reads a later clock than the id did at the start of this wait, nothing overtakes it unless it is retried itself |
| Fairness.EveryPopMovesForward | tasktiger/worker.py:565-580 | under that premise on the steps of the period, over a run, its rank plus b for every pop since is at most the rank it had |
| Fairness.NoStarvation | tasktiger/worker.py:565-580 | under the same clock premise, an id at rank r has left QUEUED, by a pop, after r / b + 1 pops of at least b |
| Fairness.InsertionRank | tasktiger/redis_scripts.py:23-33 | a new member raises another's rank by one exactly if it sorts before it |
| ExpiryRuns.ExpiryMayOvertake | tasktiger/worker.py:296-323 | a timely run - delay, pop, begin, death, listing, delay of another task, load, move - whose last step moves the waiting task from rank 0 to rank 1 |
| ExpiryRuns.LateHeartbeatBreaksIndex | tasktiger/worker.py:427-434 | a run in which an expiry pass takes the task of a late worker and its next heartbeat breaks the index agreement |
| PeriodicTasks.PeriodicTaskStays | tasktiger/worker.py:872-907 | in timely runs a periodic task found queued or scheduled, or queued, at start-up is QUEUED, ACTIVE or SCHEDULED in every later state, whatever its runs do, given from then on no cancel, no crash before rescheduling and an unending schedule |
| PeriodicTasks.ActivePeriodicTaskStays | tasktiger/worker.py:872-907 | the same for a task found active, given this since a state before it became active |
| RetryRuns.RunsExactlyMaxRetriesPlusOne | tasktiger/worker.py:734-833 | in timely runs a non-unique task whose runs all fail retriably is never started more than max_retries + 1 times, and exactly so often when it is in ERROR or removed |
| RetryRuns.RunsAreSpaced | tasktiger/worker.py:784-805 | in timely runs its start after c failures is no earlier than the end of its first failed run plus the closed-form sum of the first c waits |
| Retry.TotalIsClosed | tasktiger/retry.py:6-29 | for each method, with a factor of 1 or not, the waits before retries 1 .. n sum to the closed form |
| Retry.FixedTotal | tasktiger/retry.py:6-9 | n waits of the fixed method sum to n * delay |
| Retry.LinearTotal | tasktiger/retry.py:16-19 | n waits of the linear method sum to n * delay + increment * n (n - 1) / 2 |
| Retry.ExponentialTotal | tasktiger/retry.py:26-29 | n waits of the exponential method, times factor - 1, are delay * (factor^n - 1) |
| History.StoredHistory | tasktiger/worker.py:923-937 | in every state of any run, timely or not, the counter is the number of failures since the last deletion, and the stored list is exactly the last min(count, limit) of them |
| History.LastExecutionIsNewest | tasktiger/worker.py:724-729 | the last execution that is read is the newest failure |
| History.StepKeepsHistoryExactly | tasktiger/lua/move_task.lua:51-84 | in any run a step deletes the history of an id exactly if it removes the id for good without finding a reason to keep the executions |
| History.FailedTasksKeepHistory | tasktiger/lua/move_task.lua:51-65 | in timely runs no step deletes the executions or lowers the counter of an id that stays in ERROR; a late heartbeat can lead to both |
| ExpiryRuns.LateFinishDropsHistory | tasktiger/worker.py:427-434 | a run in which the heartbeat of a late worker makes its failed task active again, and its finish, decided as for its last execution, deletes the history of the task that is still in ERROR |
| ScriptLaws.MoveMembers | tasktiger/lua/move_task.lua:43-49 | a move succeeds exactly if the id is in the source, takes it from there to the destination under the given mode, and moves nothing else |
| ScriptLaws.MoveDeletes | tasktiger/lua/move_task.lua:51-84 | the exact conditions for deleting record and executions, in terms of the state before the move |
| ScriptLaws.MoveKeepsIndex | tasktiger/lua/move_task.lua:45-49 | a move keeps the agreement of index sets and sorted sets |
| ScriptLaws.PopPushMeaning | tasktiger/redis_scripts.py:66-100 | exactly the min(count, number within the bound) lowest ranks leave the source; those unknown to the destination enter it at the new score and are returned, the others keep their score there |
| ScriptLaws.PopPushThird | tasktiger/redis_scripts.py:102-106 | exactly the colliding members enter the third set, at the smaller of both scores, and nothing else in it changes |
| ScriptLaws.PopPushOrder | tasktiger/redis_scripts.py:81-91 | the returned ids are in source order and none is returned twice |
| ScriptLaws.PopPushConserves | tasktiger/redis_scripts.py:93-106 | source and destination together hold the same ids before and after; the third set gains only ids of the destination |
| ScriptLaws.PopPushKeepsIndex | tasktiger/redis_scripts.py:108-132 | the "update sets" forms keep the agreement of index sets and sorted sets |
| ScriptLaws.DelayKeepsIndex | tasktiger/task.py:404-414 | so does a delay |
| ScriptLaws.HeartbeatKeepsIndex | tasktiger/worker.py:432-434 | a heartbeat of active ids changes no membership and keeps the agreement |
| ScriptLaws.HeartbeatIndexExact | tasktiger/worker.py:432-434 | any heartbeat keeps the agreement if and only if it names no id or the queue has an active task |
| Meanings.AddedMeaning | tasktiger/redis_scripts.py:22-49 | the score each ZADD mode leaves a member with, and that no other changes |
| Meanings.MoveMeaning | tasktiger/lua/move_task.lua:43-49 | a move takes the id to no other set, or to one, at the score its mode asks for |
| Meanings.PopMeaning | tasktiger/worker.py:565-580 | of the first b of the queue an id that was not active is active at now and returned; one that was keeps its active score and is scheduled for later, or at its own earlier time; every other id stays where it was |
| Meanings.DueMeaning | tasktiger/worker.py:188-208 | the first b due ids leave SCHEDULED and are queued at now, or keep the place they have; every other id stays |
| Meanings.HeartbeatMeaning | tasktiger/worker.py:427-434 | every named id is active at now, and every other score is unchanged |
| Meanings.ExpireMeaning | tasktiger/worker.py:311-326 | a listed task goes back to the queue at the time of the pass, or keeps its place there, exactly if its retry_on covers a timeout, and otherwise to ERROR |
| Meanings.RescheduleMeaning | tasktiger/redis_scripts.py:263-277 | a scheduled id gets the new time as its score and in its record, and nothing else changes |
| StepMeanings.DelayStepMeaning | tasktiger/task.py:381-414 | with no due time or one not ahead the id is in QUEUED, at now if it was not there; with a later one it is in SCHEDULED, at that time if it was not there; no other set changes, and the record has that time |
| StepMeanings.UserMoveMeaning | tasktiger/task.py:604-629 | retry queues a failed id at now, cancel removes a scheduled one, delete a failed one, and each changes nothing for an id that is elsewhere |
| StepMeanings.UpdateMeaning | tasktiger/task.py:422-448 | a scheduled id gets the new time, and nothing changes for any other |
| StepMeanings.PopStepMeaning | tasktiger/worker.py:565-580 | a pop step does this to the store, and the worker holds exactly the taken ids that were not active |
| StepMeanings.LockMissMeaning | tasktiger/worker.py:656-662 | the task goes to SCHEDULED at the given time, or its own earlier one |
| StepMeanings.BeginMeaning | tasktiger/worker.py:599-607 | a periodic task is delayed for its next time, as by a delay, before it runs |
| StepMeanings.BeatMeaning | tasktiger/executor.py:66-83 | a heartbeat step refreshes exactly the named ids |
| StepMeanings.FinishMeaning | tasktiger/worker.py:690-833 | the task is removed, or goes to the set and time of its decision |
| StepMeanings.QueueScheduledMeaning | tasktiger/worker.py:188-208 | the scheduling pass queues exactly the first b due ids |
| StepMeanings.ListExpiredMeaning | tasktiger/worker.py:296-303 | the listing names tasks whose last heartbeat is at least the timeout old, and all of them unless the batch is full |
| StepMeanings.MoveExpiredMeaning | tasktiger/worker.py:311-326 | the move of a pass, with the time of its listing |
| SortedSets.RangeIsRanks | tasktiger/redis_scripts.py:66-67 | the members read by score are those of ranks 0, 1, 2, ..., as many as limit and bound allow |
| SortedSets.RangeMatchesRemoval | tasktiger/redis_scripts.py:93-95 | deleting as many ranks as members were read by score removes exactly those members |
| SortedSets.RemovalLowersRanks | tasktiger/redis_scripts.py:93-95 | every remaining rank falls by the number of members removed |
| RedisStore.Store.ZAddMode | tasktiger/redis_scripts.py:22-49 | the four zadd templates, by ZSCORE and ZADD, set the score that TaskDb.Added gives |
| RedisStore.Store.DeleteIfNotInZsets | tasktiger/redis_scripts.py:241-255 | the search loop deletes exactly if no set holds the id |
| RedisStore.Store.MoveTask | tasktiger/lua/move_task.lua:43-87 | command by command, the script makes the change of TaskDb.Move, and none at all when it fails |
| RedisStore.Store.ZPopPushExists | tasktiger/redis_scripts.py:51-124 | the loops over tables of members, with rank deletion, make the change of TaskDb.PopPush and return its ids |
| RedisStore.Store.DelayTask | tasktiger/task.py:404-417 | the MULTI block of delay makes the change of TaskDb.Delay: the id is in the set, at the score if it was not there |
| RedisStore.Store.Beat | tasktiger/worker.py:427-434 | the heartbeat makes the change of TaskDb.Heartbeat: every named id has score now, every other score stays |
| RedisStore.Store.StoreExecution | tasktiger/worker.py:923-937 | increment, push and trim make the change of TaskDb.Recorded |
| RedisStore.Store.UpdateScheduledTime | tasktiger/redis_scripts.py:263-277 | the three outcomes of the script, one of which has changed the score before it fails |
| RedisStore.Store.GetExpiredTasks | tasktiger/redis_scripts.py:279-310 | the loops over queues with a shrinking limit return TaskDb.ExpiredBatch |
| ExpiryLaws.BatchIsExpired | tasktiger/redis_scripts.py:289-301 | only expired tasks of the given queues are listed, none twice |
| ExpiryLaws.BatchSize | tasktiger/redis_scripts.py:289-310 | the number listed is min(batch size, expired tasks of those queues) |
| ExpiryLaws.ListingIsComplete | tasktiger/redis_scripts.py:281-310 | with agreeing index sets that is min(batch size, all expired tasks), so a batch that is not full lists every one |
| ExpiryLaws.HandledTasksLeave | tasktiger/worker.py:311-343 | the treatment of a listed task takes it out of ACTIVE exactly if it has no record, or its own record and a score other than 0 |
| ExpiryLaws.RequeuedDrains | tasktiger/worker.py:311-343 | a pass over such tasks takes exactly those it lists out of the expired set and keeps the index sets |
| ExpiryLaws.PassTakesListed | tasktiger/worker.py:303-343 | an undisturbed pass takes min(batch size, expired) expired tasks out of ACTIVE and changes nothing else about what is expired at any cutoff |
| ExpiryLaws.PassDrains | tasktiger/worker.py:303-343 | so it shrinks the set expired at its own or any later cutoff by that number |
| ExpiryLaws.PassesDrain | tasktiger/worker.py:345-348 | n passes at any cutoffs between low and top take n full batches or leave nothing that expired at low, so enough of them do; at one cutoff exactly max(0, total - n * batch size) are left |
| Workers.Worker.PopBatch | tasktiger/worker.py:565-580 | the call leaves the store as Meanings.IsPopped says id by id, and returns exactly the taken ids that were not active |
| Workers.Worker.ProcessFromQueue | tasktiger/worker.py:530-597 | pops as PopBatch does, in the order of the queue; refused exactly if the semaphore refuses; a call that raises nothing moves every popped task out of ACTIVE exactly once, returns the number executed and gives the queue lock back |
| Workers.Worker.ProcessQueueTasks | tasktiger/worker.py:460-528 | the same for loading and grouping: a task without its own record is removed under the id in its data, every other leaves after its group |
| Workers.Worker.LoadTasks | tasktiger/worker.py:469-504 | every id is either loaded with its own record or removed, and nothing is executed |
| Workers.Worker.AcquireLocks | tasktiger/worker.py:627-669 | the tasks are split, each part in their order, into the ready ones, whose locks are held, and those that went to SCHEDULED in the mode that keeps an earlier time |
| Workers.Worker.Execute | tasktiger/worker.py:679 | the executor is only ever given tasks whose locks the worker got, after a periodic one was queued for its next period |
| Workers.Worker.ExecuteTaskGroup | tasktiger/worker.py:609-688 | of this split exactly the ready tasks are executed, with the records and in the order of the group, and no lock is kept; with none ready the group counts as a success |
| Workers.Worker.QueueForNextPeriod | tasktiger/task.py:643-660 | a periodic task is delayed until the first time of its schedule strictly after now: in SCHEDULED at that time in seconds if it is ahead, else in QUEUED; nothing changes when the schedule has ended |
| Workers.Worker.PrepareExecution | tasktiger/worker.py:599-607 | so a task with an unending schedule is queued or scheduled again before it runs; other tasks change nothing |
| Workers.Worker.FinishTaskProcessing | tasktiger/worker.py:690-838 | unless it raises, a success removes the task, and a failure takes it to SCHEDULED after the wait, out of the queue or to ERROR at now, each under its condition on record, last execution and count; it raises after a success exactly if the task is not active, and after a failure always if a retry is due and the record is gone |
| Workers.Worker.PlanRetry | tasktiger/worker.py:744-782 | the branches over execution, task and default choose Decisions.ChosenMethod and its log flag |
| Decisions.SuccessIsDone | tasktiger/worker.py:713-719 | a task whose run succeeded is removed |
| Decisions.RetryExceptionMethod | tasktiger/worker.py:744-758 | a RetryException is answered by the method it names, else the task's, else the default |
| Decisions.OtherFailureMethod | tasktiger/worker.py:760-782 | any other failure by the task's method, always if it has no retry_on and otherwise if the exception is covered, a run without an execution counting as a timeout |
| Decisions.FailureOutcomes | tasktiger/worker.py:784-833 | a failed run goes to SCHEDULED after the wait exactly if its method allows one more retry, is removed exactly if not and a RetryException asked for no log entry, and goes to ERROR at now otherwise |
| Workers.Worker.DecideFailure | tasktiger/worker.py:721-805 | the branches reach that decision, and TaskNotFound exactly if a retry is due and the record is gone |
| Workers.Worker.QueueWorkers | tasktiger/worker.py:391-404 | the limit is 1 exactly if some part of the name is a single worker queue |
| Workers.Worker.QueueExpiredTasks | tasktiger/worker.py:283-343 | the undisturbed pass leaves the store that TaskDb.Requeued gives for the listed tasks, so ExpiryLaws.PassDrains is about it |
| Workers.Worker.QueuePeriodicTask | tasktiger/worker.py:884-907 | after the start-up check the task is queued, active or scheduled unless its schedule has ended; it is delayed until its next time exactly if it was not there with a score other than 0 |
| Workers.MovedOutIsGone | tasktiger/task.py:297-347 | a move out of ACTIVE succeeds exactly if the task is there, and then it alone has left, to the set and score that were asked for |
| WorkerSteps.PopIsStep | tasktiger/worker.py:565-580 | the pop of the worker is a Pop step, which hands it exactly the returned ids |
| WorkerSteps.LoadIsStep | tasktiger/worker.py:469-504 | loading is a Load step: a task is loaded exactly if it has its own record, and known by the id in its data otherwise |
| WorkerSteps.RemovalIsStep | tasktiger/worker.py:496-504 | the removal of a task without its own record is a CleanUp step with the same effect |
| WorkerSteps.MissIsStep | tasktiger/worker.py:652-663 | rescheduling a task whose lock is taken is a LockMiss step with the same effect |
| WorkerSteps.PreparationIsStep | tasktiger/worker.py:599-607 | the delay of a periodic task and the start of its run are a Begin step |
| WorkerSteps.LastMoveIsStep | tasktiger/worker.py:784-833 | the move after a run is an enabled Finish step with the decision of Decide, and both raise or take the task from the worker together |
| WorkerSteps.RaiseIsStep | tasktiger/task.py:590-602 | a TaskNotFound before that move, for a missing record, is the end of the worker |
| WorkerSteps.ExpiryIsSteps | tasktiger/worker.py:311-343 | the treatment of a listed task is the protocol's load, move and clean-up steps one after the other |
| Batches.GroupByFunc | tasktiger/worker.py:506-513 | the ordered dictionary holds the functions in the order first seen, each with its tasks in order |
| Batches.FirstSeenInOrder | tasktiger/worker.py:506-513 | the functions come in the order of their first tasks |
| Batches.GroupsPartition | tasktiger/worker.py:506-513 | the groups together hold exactly the tasks, each group those of its function |
| Batches.PositionsOf | tasktiger/worker.py:506-513 | each group is a subsequence of the tasks, witnessed by its positions |
| Semaphores.Semaphore.TryAcquire | tasktiger/lua/semaphore.lua:27-60 | the script, in place, makes the change and gives the answer of Semaphores.Acquire, with the caller's reading for the locks and the server's clock for the key |
| Semaphores.Semaphore.ReleaseLock | tasktiger/redis_semaphore.py:86-89 | a release removes the one lock, and the key with its last lock |
| Semaphores.Semaphore.LockSystem | tasktiger/redis_semaphore.py:65-84 | the system lock and the time to live, 10 seconds longer |
| Semaphores.AcquireMeaning | tasktiger/lua/semaphore.lua:27-60 | for a key that has not elapsed, the lock is granted if and only if no system lock ends after now and fewer than size locks of other workers do; it then ends one timeout later, and of the other locks exactly those that end after now are left |
| Semaphores.AcquireElapsed | tasktiger/lua/semaphore.lua:27-60 | an elapsed or missing key is free |
| Semaphores.AcquireExtendsKey | tasktiger/lua/semaphore.lua:35-38 | a try that meets running locks and no system lock gives the key twice the timeout, rounded up |
| Semaphores.ReleaseMeaning | tasktiger/redis_semaphore.py:86-89 | a release takes away the one lock and no other |
| Semaphores.SystemLockMeaning | tasktiger/redis_semaphore.py:65-84 | a system lock ends at its time, leaves the other locks, and until then refuses every worker |
| Semaphores.AtMostSizeLocks | tasktiger/lua/semaphore.lua:40-60 | over every history with one size, whatever the timeouts and however old the readings of its callers, there are at most size worker locks |
| Semaphores.AtMostSizeHolders | tasktiger/lua/semaphore.lua:27-60 | with one timeout and system timeouts that cover it, at most size workers with a running lock are between acquire and release |
| Semaphores.HoldersCanRenew | tasktiger/redis_semaphore.py:109-118 | then a worker with a running lock can always renew it, with any reading up to the server's clock at which no system lock runs |
| Semaphores.ExpiryOutlivesLocks | tasktiger/lua/semaphore.lua:35-38 | then the key never expires before a lock in it, nor before a system lock |
| Semaphores.SystemTimeoutIsExact | tasktiger/redis_semaphore.py:81-84 | in any state, setting a system lock leaves every lock its full time if and only if each worker lock ends within the system timeout plus 10 seconds |
| Semaphores.FreshLockNeedsCover | tasktiger/redis_semaphore.py:81-84 | next to a lock that was just granted, if and only if the system timeout plus 10 seconds is at least the lock timeout |
| QueueNames.DottedParts | tasktiger/_internal.py:110-120 | the find loop yields the prefixes before each dot, shortest first, and the name |
| QueueNames.ReversedDottedParts | tasktiger/_internal.py:123-134 | the rfind loop yields the name and the prefixes before each dot but a final one, longest first |
| QueueNames.PartsExact | tasktiger/_internal.py:110-134 | the parts of a name are the name and what comes before each of its dots; backwards, before each dot but a final one |
| QueueNames.BackwardsIsReverse | tasktiger/_internal.py:110-134 | the two loops yield reversed sequences exactly for names that do not end in a dot |
| QueueNames.LongestPartDecides | tasktiger/_internal.py:188-195 | the longest configured part decides, exclusion winning over inclusion of the same part; without one a queue matches exactly if no queues are given |
| QueueNames.MatchQueue | tasktiger/_internal.py:158-195 | the loop with early returns decides QueueNames.QueueMatches |
| QueueNames.QueueBatchSize | tasktiger/worker.py:378-389 | the forward loop finds the size of the last configured part, 1 by default |
| QueueNames.LongestPartGivesSize | tasktiger/worker.py:378-389 | that is the size of the longest configured part |
| QueueNames.ReverseScanAgrees | tasktiger/worker.py:381-387 | a reverse scan with a break agrees for all configurations exactly for names that do not end in a dot |
| QueueNames.TrailingDotMissed | tasktiger/worker.py:381-387 | for every other name, a configuration for which it does not |
| GlobFilter.EscapedGlobIsPrefix | tasktiger/utils.py:3-7 | an escaped name followed by "*", read as a Redis glob, matches exactly the strings with that prefix |
| GlobFilter.PrefilterAgrees | tasktiger/worker.py:914-921 | filtering the queues the server's glob lets through is filtering all queues |
| GlobFilter.FilterExact | tasktiger/worker.py:152-167 | exactly which members the server sends and which of them the worker keeps |
| Schedule.PeriodicIsNextSlot | tasktiger/schedule.py:9-32 | a result is the least start + k * period strictly after the given time |
| Schedule.PeriodicEnds | tasktiger/schedule.py:15-30 | when there is no result: exactly if the end has come, or the next slot after the start lies beyond it |

## Left out

- The ZPOPPUSH forms without an "if exists" action and ZPOPPUSH_WITHSCORES: workers never call them.
- The "if exists" modes nx and max that the docstring of zpoppush lists: the script has only the min form.
- ALWAYS_EAGER, `max_queue_size`, pub/sub, polling, statistics, migrations, runner classes, hard timeouts, queue-size getters.
- `os.fork`, pipes, `waitpid` and user code: an execution ends in success, failure, timeout or the death of its worker.
- The renew loop of the executors: heartbeats are steps of the protocol, renewals are acquisitions of the semaphore.
- The exit of a worker after a job timeout: the death of its holder.
- The scheduling pass over its list of queues and its lock: each queue's script is a step of its own.
- The lock of the expiry pass: its release after a full batch; that one pass runs at a time is a premise.
- `purge_errored_tasks`: it pages by offset over a set that it shrinks.
- `croniter` schedules: croniter is not part of this model.
- Importing functions and exception classes: `retryOn` is the set of exception names the list covers, `Unimportable` a retry method that cannot be imported.
- Rounding of floating-point scores and delays: scores are real numbers.
- A queue name filter of more than one only-queue: no prefilter is used then.
- Semaphores.AtMostSizeHolders: for one size and one timeout per queue; a worker whose renewal failed keeps running, which its "running lock" excludes.
- Workers.Worker.FinishTaskProcessing: takes the reads of the last execution and of the counter as one; other processes run before them and before the move.
- Workers.Worker.ProcessFromQueue: other processes act from the pop on; what they do earlier is part of the state at the call.
- Workers.Worker.Execute: a lock that was acquired counts as held until it is released; that its lease may end first is left out, as is the runner hook for permanent errors that follows a failed run.
- WorkerSteps.LastMoveIsStep: like its neighbours about one command at a time; that a whole call of the worker is a segment of one run of the protocol is not stated.
- Workers.Worker.QueuePeriodicTask: the look-up and the delay are taken as one, although other processes may act between them.
- Workers.Worker.QueueExpiredTasks: for a pass that nothing disturbs; the interleaved pass is the one of Protocol and Runs.OnlyAbandonedTasksExpire.
- RetryRuns.RunsExactlyMaxRetriesPlusOne: an upper bound and the exact number at rest; that a task comes to rest needs workers that keep popping, which is Fairness.NoStarvation.
- PeriodicTasks.PeriodicTaskStays: the uniqueness of periodic tasks is a premise (tasktiger/tasktiger.py:338-340), not derived from the decorator.
