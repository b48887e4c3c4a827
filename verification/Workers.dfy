/** A worker processing one queue, step by step, while other processes change the store between
any two of its commands. */
module Workers {
  import opened SortedSets
  import opened Wrappers
  import opened TaskDb
  import opened ScriptLaws
  import opened Meanings
  import opened RedisStore
  import opened Protocol
  import opened Decisions
  import opened Batches
  import ExpiryLaws
  import QueueNames
  import Semaphores
  import Retry
  import Schedule

  /** Why a worker took a task out of ACTIVE. */
  datatype Reason = NotFound | Mismatch | LockMissed | Executed

  /** The set a task went to, with the score it was given. */
  datatype Entry = Entry(state: State, when: real, mode: Mode)

  /** One move out of ACTIVE, out of the queue altogether when `to` is None. */
  datatype Departure = Departure(id: Id, queue: Queue, to: Option<Entry>, unique: bool, reason: Reason)

  /** `Task._move` out of ACTIVE. */
  function MovedOut(db: Db, d: Departure): Result<Db>
    requires d.to.Some? ==> MoveMode(d.to.value.mode)
  {
    if d.to.Some? then
      var Entry(state, when, mode) := d.to.value;
      Move(db, d.id, d.queue, Active, Some(state), d.unique, when, mode)
    else Move(db, d.id, d.queue, Active, None, d.unique, 0.0, Plain)
  }

  function GoneIds(departures: seq<Departure>): seq<Id> {
    seq(|departures|, i requires 0 <= i < |departures| => departures[i].id)
  }

  function ExecutedIds(departures: seq<Departure>): seq<Id> {
    if departures == [] then []
    else
      var rest, last := ExecutedIds(departures[..|departures| - 1]), departures[|departures| - 1];
      if last.reason.Executed? then rest + [last.id] else rest
  }

  /** The id a task is known by after loading: the one in its record, if it has one. */
  function DataId(records: map<Id, Record>, id: Id): Id {
    if id in records then records[id].id else id
  }

  function DataIds(records: map<Id, Record>, taskIds: seq<Id>): seq<Id> {
    seq(|taskIds|, i requires 0 <= i < |taskIds| => DataId(records, taskIds[i]))
  }

  /** Records carry the ids they are stored under. */
  predicate OwnRecords(records: map<Id, Record>) {
    forall x :: x in records ==> records[x].id == x
  }

  lemma OwnDataIds(records: map<Id, Record>, taskIds: seq<Id>)
    requires OwnRecords(records)
    ensures DataIds(records, taskIds) == taskIds
  {}

  lemma DataIdsSoFar(records: map<Id, Record>, taskIds: seq<Id>, i: nat)
    requires i < |taskIds|
    ensures DataIds(records, taskIds[..i + 1]) == DataIds(records, taskIds[..i]) + [DataId(records, taskIds[i])]
  {
    assert taskIds[..i + 1][..i] == taskIds[..i];
  }

  lemma GoneIdsConcat(a: seq<Departure>, b: seq<Departure>)
    ensures GoneIds(a + b) == GoneIds(a) + GoneIds(b)
  {}

  lemma {:induction false} ExecutedConcat(a: seq<Departure>, b: seq<Departure>)
    ensures ExecutedIds(a + b) == ExecutedIds(a) + ExecutedIds(b)
  {
    if b == [] {
      assert a + b == a;
    } else {
      ExecutedConcat(a, b[..|b| - 1]);
      assert (a + b)[..|a + b| - 1] == a + b[..|b| - 1];
    }
  }

  lemma {:induction false} NothingExecuted(a: seq<Departure>)
    requires forall d :: d in a ==> !d.reason.Executed?
    ensures ExecutedIds(a) == []
  {
    if a != [] {
      NothingExecuted(a[..|a| - 1]);
    }
  }

  /** Lock misses are rescheduled without prolonging an earlier time, tasks without a proper record
  are removed, and what was executed is removed, scheduled again or failed. */
  predicate ProperDeparture(d: Departure) {
    match d.reason
    case LockMissed => d.to.Some? && d.to.value.state.Scheduled? && d.to.value.mode.Min?
    case Executed => d.to.Some? ==> d.to.value.mode.Plain? && (d.to.value.state.Scheduled? || d.to.value.state.Error?)
    case _ => d.to.None?
  }

  /** A task whose lock another process holds. */
  function Missed(queue: Queue, task: Record, when: real): Departure {
    Departure(task.id, queue, Some(Entry(Scheduled, when, Min)), task.unique, LockMissed)
  }

  /** A task without a record of its own. */
  function Removed(queue: Queue, id: Id, record: Option<Record>): Departure {
    if record.Some? then Departure(record.value.id, queue, None, record.value.unique, Mismatch)
    else Departure(id, queue, None, false, NotFound)
  }

  /** A task after its run, as `_finish_task_processing` decided. */
  function Finished(queue: Queue, task: Record, decision: Decision): Departure {
    Departure(task.id, queue,
              if decision.Done? then None else Some(Entry(decision.state, decision.when, Plain)),
              task.unique, Executed)
  }

  /** What happens to tasks that are not executed. */
  ghost predicate AreRemovals(departures: seq<Departure>) {
    forall d :: d in departures ==> !d.reason.Executed? && ProperDeparture(d)
  }

  lemma RemovalsFirst(removed: seq<Departure>, more: seq<Departure>)
    requires AreRemovals(removed)
    ensures GoneIds(removed + more) == GoneIds(removed) + GoneIds(more)
    ensures ExecutedIds(removed + more) == ExecutedIds(more)
  {
    GoneIdsConcat(removed, more);
    ExecutedConcat(removed, more);
    NothingExecuted(removed);
  }

  /** The tasks went back to SCHEDULED, in their order. */
  ghost predicate AreMisses(queue: Queue, tasks: seq<Record>, departures: seq<Departure>) {
    && |departures| == |tasks|
    && forall k :: 0 <= k < |tasks| ==>
         departures[k].to.Some? && departures[k] == Missed(queue, tasks[k], departures[k].to.value.when)
  }

  lemma MissesMore(queue: Queue, tasks: seq<Record>, departures: seq<Departure>, t: Record, when: real)
    requires AreMisses(queue, tasks, departures)
    ensures AreMisses(queue, tasks + [t], departures + [Missed(queue, t, when)])
  {}

  lemma MissesAreRemovals(queue: Queue, tasks: seq<Record>, departures: seq<Departure>)
    requires AreMisses(queue, tasks, departures)
    ensures AreRemovals(departures) && GoneIds(departures) == Ids(tasks)
  {}

  lemma TakenSoFar(tasks: seq<Record>, i: nat)
    requires i < |tasks|
    ensures Ids(tasks[..i + 1]) == Ids(tasks[..i]) + [tasks[i].id]
  {}

  lemma GroupAdded(tasks: seq<Record>, funcs: seq<string>, i: nat, made: seq<Departure>, more: seq<Departure>,
                   raised: bool)
    requires i < |funcs| && multiset(GoneIds(made)) == multiset(Ids(Grouped(tasks, funcs[..i])))
    requires !raised ==> multiset(GoneIds(more)) == multiset(Ids(OfFunc(tasks, funcs[i])))
    ensures !raised ==> multiset(GoneIds(made + more)) == multiset(Ids(Grouped(tasks, funcs[..i + 1])))
    ensures ExecutedIds(made + more) == ExecutedIds(made) + ExecutedIds(more)
  {
    GroupedSoFar(tasks, funcs, i);
    GoneIdsConcat(made, more);
    ExecutedConcat(made, more);
  }

  /** The locks that the tasks ask for are held. */
  ghost predicate CoveredBy(tasks: seq<Record>, held: set<nat>) {
    forall t :: t in tasks && t.lock.Some? ==> t.lock.value in held
  }

  lemma CoverMore(tasks: seq<Record>, before: set<nat>, held: set<nat>, t: Record)
    requires CoveredBy(tasks, before) && before <= held && (t.lock.Some? ==> t.lock.value in held)
    ensures CoveredBy(tasks + [t], held)
  {}

  /** Each of `all` is either gone or still in `tasks`. */
  ghost predicate Accounted(gone: seq<Departure>, tasks: seq<Record>, all: seq<Id>) {
    multiset(GoneIds(gone)) + multiset(Ids(tasks)) == multiset(all)
  }

  lemma AccountTask(gone: seq<Departure>, tasks: seq<Record>, all: seq<Id>, t: Record)
    requires Accounted(gone, tasks, all)
    ensures Accounted(gone, tasks + [t], all + [t.id])
  {
    IdsConcat(tasks, [t]);
    assert Ids([t]) == [t.id];
  }

  lemma AccountGone(gone: seq<Departure>, tasks: seq<Record>, all: seq<Id>, d: Departure)
    requires Accounted(gone, tasks, all)
    ensures Accounted(gone + [d], tasks, all + [d.id])
  {
    GoneIdsConcat(gone, [d]);
    assert GoneIds([d]) == [d.id];
  }

  ghost predicate AreProper(departures: seq<Departure>) {
    forall d :: d in departures ==> ProperDeparture(d)
  }

  lemma MoreDepartures(a: seq<Departure>, d: Departure)
    ensures GoneIds(a + [d]) == GoneIds(a) + [d.id]
    ensures ExecutedIds(a + [d]) == ExecutedIds(a) + if d.reason.Executed? then [d.id] else []
  {
    assert (a + [d])[..|a|] == a;
  }

  /** A successful move takes the task out of ACTIVE, and into the set it names. */
  lemma MovedOutIsGone(db: Db, d: Departure)
    requires d.to.Some? ==> MoveMode(d.to.value.mode) && !d.to.value.state.Active?
    ensures MovedOut(db, d).Ok? <==> db.Has(Active, d.queue, d.id)
    ensures MovedOut(db, d).Ok? && d.to.None? ==> IsRemoved(db, MovedOut(db, d).value, Key(Active, d.queue), d.id)
    ensures MovedOut(db, d).Ok? && d.to.Some? ==>
              var Entry(state, when, mode), z := d.to.value, db.Z(Key(d.to.value.state, d.queue));
              var score := if mode.Plain? then when
                           else if mode.Nx? then (if d.id in z then z[d.id] else when) else Earlier(z, d.id, when);
              IsMoved(db, MovedOut(db, d).value, Key(Active, d.queue), Key(state, d.queue), d.id, score)
  {
    if db.Has(Active, d.queue, d.id) {
      if d.to.Some? {
        var Entry(state, when, mode) := d.to.value;
        MoveMeaning(db, d.id, d.queue, Active, Some(state), d.unique, when, mode);
      } else {
        MoveMeaning(db, d.id, d.queue, Active, None, d.unique, 0.0, Plain);
      }
    }
  }

  /** `Task.delay` of a task until a time of its schedule. */
  function DelayedUntil(db: Db, queue: Queue, task: Record, time: int, now: real): Db {
    var (state, score) := DelayTarget(Some(Schedule.Timestamp(time)), now);
    Delay(db, queue, task.(scheduledAt := score), state, score)
  }

  predicate IsRequested(db: Db, queue: Queue, id: Id) {
    db.Has(Queued, queue, id) || db.Has(Scheduled, queue, id)
  }

  class Worker {
    const id: nat
    const store: Store
    const batchQueues: map<string, int>
    const singleWorkerQueues: set<string>
    const maxWorkers: nat
    const periodic: map<string, Schedule.Plan>
    const defaultRetry: Retry.Method
    const activeTimeout: real

    /** The task locks the worker holds. */
    var held: set<nat>

    /** The moves out of ACTIVE that succeeded, and the ids handed to the executor. */
    ghost var departures: seq<Departure>
    ghost var executed: seq<Id>

    constructor (id: nat, store: Store, batchQueues: map<string, int>, singleWorkerQueues: set<string>,
                 maxWorkers: nat, periodic: map<string, Schedule.Plan>, defaultRetry: Retry.Method, activeTimeout: real)
      ensures this.store == store && this.held == {} && departures == [] && executed == []
    {
      this.id, this.store, this.batchQueues := id, store, batchQueues;
      this.singleWorkerQueues, this.maxWorkers := singleWorkerQueues, maxWorkers;
      this.periodic, this.defaultRetry, this.activeTimeout := periodic, defaultRetry, activeTimeout;
      held, departures, executed := {}, [], [];
    }

    /** Anything that other processes may do between two commands of this worker. */
    method Others()
      requires store.Valid()
      modifies store
      ensures store.Valid()
    {}

    /** `Task._move` from ACTIVE; `ok` is false when it raises TaskNotFound. */
    method MoveOut(d: Departure) returns (ok: bool)
      requires store.Valid() && (d.to.Some? ==> MoveMode(d.to.value.mode))
      modifies this`departures, store
      ensures store.Valid()
      ensures ok <==> MovedOut(old(store.Value()), d).Ok?
      ensures if ok then MovedOut(old(store.Value()), d) == Ok(store.Value()) else store.Value() == old(store.Value())
      ensures departures == old(departures) + if ok then [d] else []
    {
      if d.to.Some? {
        var Entry(state, when, mode) := d.to.value;
        ok := store.MoveTask(d.id, d.queue, Active, Some(state), d.unique, when, mode);
      } else {
        ok := store.MoveTask(d.id, d.queue, Active, None, d.unique, 0.0, Plain);
      }
      if ok {
        departures := departures + [d];
      }
    }

    // ---- after a run ---------------------------------------------------------------------------

    /** The branches that choose a retry method. */
    method PlanRetry(task: Record, execution: Option<Execution>)
      returns (plan: Option<Retry.Method>, logError: bool)
      ensures plan == ChosenMethod(task, defaultRetry, execution)
      ensures logError == LogsError(execution)
    {
      var shouldRetry := false;
      logError := true;
      plan := None;
      if execution.Some? && execution.value.retry.Some? {
        var request := execution.value.retry.value;
        if request.retryMethod.Some? {
          plan := request.retryMethod;
        } else if task.retryMethod.Some? {
          plan := task.retryMethod;
        } else {
          plan := Some(defaultRetry);
        }
        logError := request.logError;
        shouldRetry := true;
      }
      if task.retryMethod.Some? && !shouldRetry {
        if task.retryOn.Some? {
          if execution.Some? {
            shouldRetry := ShouldRetryOn(task, execution.value.exception);
          } else {
            shouldRetry := ShouldRetryOn(task, JOB_TIMEOUT);
          }
        } else {
          shouldRetry := true;
        }
        plan := if shouldRetry then task.retryMethod else None;
      }
    }

    /** Where a failed run takes its task: to SCHEDULED after the wait if it is to be retried; otherwise
    out of the queue if a RetryException asked for no log entry, and to ERROR if not. */
    ghost function AfterFailure(task: Record, now: real): Option<Entry>
      reads store
    {
      var last, executions := LastExecution(store.Value(), task.id), store.Value().Count(task.id);
      var chosen := ChosenMethod(task, defaultRetry, last);
      if AllowsRetry(chosen, executions) then
        Some(Entry(Scheduled, now + Retry.WaitLength(chosen.value, if executions == 0 then 1 else executions), Plain))
      else if last.Some? && last.value.retry.Some? && !last.value.retry.value.logError then None
      else Some(Entry(Error, now, Plain))
    }

    /** The move that ends the processing of a task: as Decide says about its last execution and its
    execution count. */
    ghost function LastMove(queue: Queue, task: Record, success: bool, now: real): (d: Departure)
      reads store
      ensures d.id == task.id && d.reason.Executed? && ProperDeparture(d)
      ensures d == Departure(task.id, queue, if success then None else AfterFailure(task, now), task.unique, Executed)
    {
      var db := store.Value();
      Finished(queue, task, Decide(task, defaultRetry, success, LastExecution(db, task.id), db.Count(task.id), now))
    }

    /** A failed run is to be retried, but the task has no record any more. */
    ghost predicate CannotCount(task: Record, success: bool)
      reads store
    {
      && !success && task.id !in store.records
      && ChosenMethod(task, defaultRetry, LastExecution(store.Value(), task.id)).Some?
    }

    /** What to do after a failed run; `missing` is the TaskNotFound of `n_executions`. */
    method DecideFailure(task: Record, now: real) returns (missing: bool, decision: Decision)
      ensures missing <==> CannotCount(task, false)
      ensures !missing ==>
                decision == Decide(task, defaultRetry, false, LastExecution(store.Value(), task.id),
                                   store.Value().Count(task.id), now)
    {
      missing, decision := false, Done;
      var history := if task.id in store.executions then store.executions[task.id] else [];
      var last := if history == [] then None else Some(history[|history| - 1]);
      var plan, logError := PlanRetry(task, last);
      var state, when := Error, now;
      if plan.Some? {
        if task.id !in store.records {
          return true, Done;
        }
        var executions := if task.id in store.counts then store.counts[task.id] else 0;
        var retryNum := if executions == 0 then 1 else executions;
        if !plan.value.Unimportable? {
          var delay := Retry.Wait(plan.value, retryNum);
          if delay.Some? {
            when := when + delay.value;
            state := Scheduled;
          }
        }
      }
      decision := if state == Error && !logError then Done else MoveTo(state, when);
    }

    /** `_finish_task_processing`: the task makes its last move unless its record or its place in
    ACTIVE is gone. */
    method FinishTaskProcessing(queue: Queue, task: Record, success: bool, now: real) returns (raised: bool)
      requires store.Valid()
      modifies this`departures, store
      ensures store.Valid()
      ensures departures == old(departures) + if raised then [] else [old(LastMove(queue, task, success, now))]
      ensures success && !raised ==>
                departures == old(departures) + [Departure(task.id, queue, None, task.unique, Executed)]
      ensures !success && !raised ==>
                departures == old(departures)
                              + [Departure(task.id, queue, old(AfterFailure(task, now)), task.unique, Executed)]
      ensures success ==> (raised <==> !old(store.Value()).Has(Active, queue, task.id))
      ensures old(CannotCount(task, success)) ==> raised && store.Value() == old(store.Value())
    {
      if success {
        var ok := MoveOut(Finished(queue, task, Done));
        return !ok;
      }
      var missing, decision := DecideFailure(task, now);
      if missing {
        return true;
      }
      Others();
      var ok := MoveOut(Finished(queue, task, decision));
      return !ok;
    }

    // ---- one function group ---------------------------------------------------------------------

    /** `Task._queue_for_next_period`: unless the schedule has ended the task is delayed for the first
    time of its schedule that is strictly after `utc`. */
    method QueueForNextPeriod(queue: Queue, task: Record, utc: int, now: real) returns (when: Option<int>)
      requires store.Valid() && task.func in periodic
      modifies store
      ensures store.Valid() && when == periodic[task.func].Next(utc)
      ensures when.None? ==> store.Value() == old(store.Value())
      ensures when.Some? ==>
                && Schedule.IsNextSlot(utc, periodic[task.func].period, periodic[task.func].start, when.value)
                && store.Value() == DelayedUntil(old(store.Value()), queue, task, when.value, now)
                && IsDelayed(old(store.Value()), store.Value(), queue, task.id,
                             Some(when.value as real / 1_000_000.0), now)
                && IsRequested(store.Value(), queue, task.id)
    {
      var plan := periodic[task.func];
      when := Schedule.Periodic(utc, plan.period, plan.start, plan.end);
      Schedule.PeriodicIsNextSlot(utc, plan.period, plan.start, plan.end);
      if when.Some? {
        var (state, score) := DelayTarget(Some(Schedule.Timestamp(when.value)), now);
        var record := task.(scheduledAt := score);
        DelayMembers(store.Value(), queue, record, state, score);
        AddedHasMember(store.Value().Z(Key(state, queue)), score, record.id, Nx);
        DelayEnters(store.Value(), queue, record, state, score);
        store.DelayTask(queue, record, state, score);
      }
    }

    /** `_prepare_execution`: a periodic task is delayed for its next period first. */
    method PrepareExecution(queue: Queue, tasks: seq<Record>, utc: int, now: real)
      requires store.Valid() && tasks != []
      modifies store
      ensures store.Valid() && IsPrepared(store.Value(), queue, tasks)
      ensures store.Value() == if tasks[0].func in periodic && periodic[tasks[0].func].Next(utc).Some?
                               then DelayedUntil(old(store.Value()), queue, tasks[0],
                                                 periodic[tasks[0].func].Next(utc).value, now)
                               else old(store.Value())
    {
      if tasks[0].func in periodic {
        var when := QueueForNextPeriod(queue, tasks[0], utc, now);
      }
    }

    /** A task whose schedule never ends is queued for its next period. */
    ghost predicate IsPrepared(db: Db, queue: Queue, tasks: seq<Record>)
      requires tasks != []
    {
      tasks[0].func in periodic && periodic[tasks[0].func].end.None? ==> IsRequested(db, queue, tasks[0].id)
    }

    /** The executor runs tasks whose locks the worker holds, the first of them being queued for its
    next period if it is periodic; how it ends is not known. */
    method Execute(queue: Queue, tasks: seq<Record>) returns (success: bool)
      requires store.Valid() && tasks != []
      requires CoveredBy(tasks, held) && IsPrepared(store.Value(), queue, tasks)
      modifies this`executed, store
      ensures store.Valid() && executed == old(executed) + Ids(tasks)
    {
      executed := executed + Ids(tasks);
      Others();
      success := *;
    }

    /** One turn of the loop that acquires the locks: the task is ready, and then the worker holds
    its lock, or it went back to SCHEDULED because another process has the lock. */
    method TryReady(queue: Queue, task: Record, when: real) returns (ready: bool, raised: bool)
      requires store.Valid()
      modifies this`departures, this`held, store
      ensures store.Valid() && old(held) <= held && (!ready ==> held == old(held))
      ensures ready && task.lock.Some? ==> task.lock.value in held
      ensures ready ==> !raised
      ensures departures == old(departures) + if ready || raised then [] else [Missed(queue, task, when)]
    {
      Others();
      if task.lock.Some? && task.lock.value !in held {
        var got: bool := *;
        if !got {
          var ok := MoveOut(Missed(queue, task, when));
          return false, !ok;
        }
        held := held + {task.lock.value};
      }
      return true, false;
    }

    /** The loop that acquires the locks splits the tasks, each part in their order, into the ready
    ones, whose locks the worker holds, and those that went back to SCHEDULED. */
    method AcquireLocks(queue: Queue, tasks: seq<Record>)
      returns (ready: seq<Record>, raised: bool, ghost missed: seq<Departure>, ghost flags: seq<bool>)
      requires store.Valid() && held == {}
      modifies this`departures, this`held, store
      ensures store.Valid()
      ensures departures == old(departures) + missed
      ensures |flags| <= |tasks| && (!raised ==> |flags| == |tasks|)
      ensures ready == Chosen(tasks, flags, true) && AreMisses(queue, Chosen(tasks, flags, false), missed)
      ensures CoveredBy(ready, held) && (ready == [] ==> held == {})
    {
      ready, raised, missed, flags := [], false, [], [];
      assert departures == old(departures) + missed;
      for i := 0 to |tasks|
        invariant store.Valid()
        invariant departures == old(departures) + missed
        invariant |flags| == i
        invariant ready == Chosen(tasks, flags, true) && AreMisses(queue, Chosen(tasks, flags, false), missed)
        invariant CoveredBy(ready, held) && (ready == [] ==> held == {})
      {
        ghost var heldBefore := held;
        var when: real, isReady: bool := *, true;
        isReady, raised := TryReady(queue, tasks[i], when);
        if raised {
          return;
        }
        ChosenMore(tasks, flags, isReady);
        flags := flags + [isReady];
        assert flags[..i] + [isReady] == flags;
        if isReady {
          CoverMore(ready, heldBefore, held, tasks[i]);
          ready := ready + [tasks[i]];
        } else {
          MissesMore(queue, Chosen(tasks, flags[..i], false), missed, tasks[i], when);
          missed := missed + [Missed(queue, tasks[i], when)];
        }
      }
    }

    /** `_execute_task_group`: the tasks whose locks the worker gets are executed together while it
    holds those locks; the others go back to SCHEDULED. */
    method ExecuteTaskGroup(queue: Queue, tasks: seq<Record>)
      returns (success: bool, ready: seq<Record>, raised: bool, ghost missed: seq<Departure>, ghost flags: seq<bool>)
      requires store.Valid() && held == {}
      modifies this`departures, this`held, this`executed, store
      ensures store.Valid() && (!raised ==> held == {})
      ensures departures == old(departures) + missed
      ensures |flags| <= |tasks| && (!raised ==> |flags| == |tasks|)
      ensures ready == Chosen(tasks, flags, true) && AreMisses(queue, Chosen(tasks, flags, false), missed)
      ensures !raised && ready == [] ==> success
      ensures !raised ==> executed == old(executed) + Ids(ready)
    {
      success := true;
      ready, raised, missed, flags := AcquireLocks(queue, tasks);
      if raised {
        return;
      }
      if ready == [] {
        return;
      }
      var utc: int, now: real := *, *;
      PrepareExecution(queue, ready, utc, now);
      success := Execute(queue, ready);
      Others();
      held := {};
    }

    /** What follows the run of a group: each of its tasks is finished in turn. */
    method FinishTasks(queue: Queue, tasks: seq<Record>, success: bool)
      returns (raised: bool, ghost finished: seq<Departure>)
      requires store.Valid()
      modifies this`departures, store
      ensures store.Valid()
      ensures departures == old(departures) + finished && AreProper(finished)
      ensures !raised ==> GoneIds(finished) == Ids(tasks) && ExecutedIds(finished) == Ids(tasks)
    {
      raised, finished := false, [];
      assert departures == old(departures) + finished;
      for i := 0 to |tasks|
        invariant store.Valid()
        invariant departures == old(departures) + finished && AreProper(finished)
        invariant GoneIds(finished) == Ids(tasks[..i]) && ExecutedIds(finished) == Ids(tasks[..i])
      {
        Others();
        var now: real := *;
        ghost var last := LastMove(queue, tasks[i], success, now);
        raised := FinishTaskProcessing(queue, tasks[i], success, now);
        if raised {
          return;
        }
        TakenSoFar(tasks, i);
        MoreDepartures(finished, last);
        finished := finished + [last];
      }
      assert tasks[..|tasks|] == tasks;
    }

    /** One group and what follows its run. */
    method ProcessGroup(queue: Queue, tasks: seq<Record>)
      returns (processed: nat, raised: bool, ghost made: seq<Departure>)
      requires store.Valid() && held == {}
      modifies this`departures, this`held, this`executed, store
      ensures store.Valid() && (!raised ==> held == {})
      ensures departures == old(departures) + made && AreProper(made)
      ensures !raised ==> multiset(GoneIds(made)) == multiset(Ids(tasks))
      ensures !raised ==> processed == |ExecutedIds(made)| && executed == old(executed) + ExecutedIds(made)
    {
      var success, ready;
      ghost var flags;
      success, ready, raised, made, flags := ExecuteTaskGroup(queue, tasks);
      processed := |ready|;
      MissesAreRemovals(queue, Chosen(tasks, flags, false), made);
      if raised {
        return;
      }
      ghost var missed, finished := made, [];
      raised, finished := FinishTasks(queue, ready, success);
      made := missed + finished;
      RemovalsFirst(missed, finished);
      ChosenAll(tasks, flags);
    }

    // ---- one batch -------------------------------------------------------------------------------

    /** MGET and the loop over its answer: a task without a record of its own is removed, under the
    id that its data has. */
    method LoadTasks(queue: Queue, taskIds: seq<Id>)
      returns (tasks: seq<Record>, raised: bool, ghost removed: seq<Departure>)
      requires store.Valid()
      modifies this`departures, store
      ensures store.Valid()
      ensures departures == old(departures) + removed && AreRemovals(removed)
      ensures !raised ==> Accounted(removed, tasks, DataIds(old(store.records), taskIds))
      ensures forall t :: t in tasks ==> t.id in old(store.records) && t == old(store.records)[t.id]
    {
      var records := store.records;
      tasks, raised, removed := [], false, [];
      assert departures == old(departures) + removed;
      for i := 0 to |taskIds|
        invariant store.Valid()
        invariant departures == old(departures) + removed && AreRemovals(removed)
        invariant Accounted(removed, tasks, DataIds(records, taskIds[..i]))
        invariant forall t :: t in tasks ==> t.id in records && t == records[t.id]
      {
        var x := taskIds[i];
        DataIdsSoFar(records, taskIds, i);
        if x in records && records[x].id == x {
          AccountTask(removed, tasks, DataIds(records, taskIds[..i]), records[x]);
          tasks := tasks + [records[x]];
        } else {
          var record := if x in records then Some(records[x]) else None;
          var ok := RemoveBroken(queue, x, record);
          if !ok {
            raised := true;
            return;
          }
          AccountGone(removed, tasks, DataIds(records, taskIds[..i]), Removed(queue, x, record));
          removed := removed + [Removed(queue, x, record)];
        }
      }
      assert taskIds[..|taskIds|] == taskIds;
    }

    /** The removal of a task whose record is missing or carries another id. */
    method RemoveBroken(queue: Queue, id: Id, record: Option<Record>) returns (ok: bool)
      requires store.Valid()
      modifies this`departures, store
      ensures store.Valid()
      ensures departures == old(departures) + if ok then [Removed(queue, id, record)] else []
    {
      Others();
      ok := MoveOut(Removed(queue, id, record));
    }

    /** The loop over the groups. */
    method ProcessGroups(queue: Queue, tasks: seq<Record>, funcs: seq<string>, groups: map<string, seq<Record>>)
      returns (processed: nat, raised: bool, ghost made: seq<Departure>)
      requires store.Valid() && held == {}
      requires forall f :: f in funcs ==> f in groups && groups[f] == OfFunc(tasks, f)
      modifies this`departures, this`held, this`executed, store
      ensures store.Valid()
      ensures departures == old(departures) + made && AreProper(made)
      ensures !raised ==> multiset(GoneIds(made)) == multiset(Ids(Grouped(tasks, funcs)))
      ensures !raised ==> processed == |ExecutedIds(made)| && executed == old(executed) + ExecutedIds(made)
    {
      processed, raised, made := 0, false, [];
      for i := 0 to |funcs|
        invariant store.Valid() && held == {}
        invariant departures == old(departures) + made && AreProper(made)
        invariant multiset(GoneIds(made)) == multiset(Ids(Grouped(tasks, funcs[..i])))
        invariant processed == |ExecutedIds(made)| && executed == old(executed) + ExecutedIds(made)
      {
        assert funcs[i] in funcs;
        var count;
        ghost var more;
        count, raised, more := ProcessGroup(queue, groups[funcs[i]]);
        GroupAdded(tasks, funcs, i, made, more, raised);
        assert departures == old(departures) + (made + more);
        assert !raised ==> executed == old(executed) + ExecutedIds(made + more);
        made := made + more;
        if raised {
          return;
        }
        processed := processed + count;
      }
      assert funcs[..|funcs|] == funcs;
    }

    /** `_process_queue_tasks`: unless something raises, every task of the batch leaves ACTIVE exactly
    once, and the count is the number of executed tasks. */
    method ProcessQueueTasks(queue: Queue, taskIds: seq<Id>)
      returns (processed: nat, raised: bool, ghost made: seq<Departure>)
      requires store.Valid() && held == {}
      modifies this`departures, this`held, this`executed, store
      ensures store.Valid()
      ensures departures == old(departures) + made && AreProper(made)
      ensures !raised ==> multiset(GoneIds(made)) == multiset(DataIds(old(store.records), taskIds))
      ensures !raised ==> processed == |ExecutedIds(made)| && executed == old(executed) + ExecutedIds(made)
    {
      processed := 0;
      var tasks;
      tasks, raised, made := LoadTasks(queue, taskIds);
      if raised {
        return;
      }
      var funcs, groups := GroupByFunc(tasks);
      ghost var removed, more := made, [];
      processed, raised, more := ProcessGroups(queue, tasks, funcs, groups);
      made := removed + more;
      RemovalsFirst(removed, more);
      FirstSeenCovers(tasks);
      GroupedCovers(tasks, funcs);
      IdsOfSameTasks(Grouped(tasks, funcs), tasks);
    }

    // ---- the queue lock -----------------------------------------------------------------------

    /** How many workers may process a queue at once; 0 stands for no limit. */
    ghost function Limit(queue: Queue): nat {
      if exists part :: part in QueueNames.Parts(queue) && part in singleWorkerQueues then 1 else maxWorkers
    }

    method QueueWorkers(queue: Queue) returns (size: nat)
      ensures size == Limit(queue)
    {
      size := maxWorkers;
      var parts := QueueNames.DottedParts(queue);
      for i := 0 to |parts|
        invariant size == maxWorkers
        invariant forall j :: 0 <= j < i ==> parts[j] !in singleWorkerQueues
      {
        if parts[i] in singleWorkerQueues {
          size := 1;
          break;
        }
      }
    }

    /** Other workers at the semaphore of the queue, and this one renewing its lock. */
    method OthersAt(semaphore: Semaphores.Semaphore)
      modifies semaphore
    {}

    /** The pop of a batch. */
    method PopBatch(queue: Queue, count: int, now: real, later: real) returns (taskIds: seq<Id>)
      requires store.Valid()
      modifies store
      ensures store.Valid()
      ensures (store.Value(), taskIds) == PopQueued(old(store.Value()), queue, count, now, later)
      ensures IsPopped(old(store.Value()), store.Value(), queue, count, now, later)
      ensures var before := old(store.Value());
              forall x :: x in taskIds
                     <==> IsTaken(before.Z(Key(Queued, queue)), count, x) && !before.Has(Active, queue, x)
    {
      PopMeaning(store.Value(), queue, count, now, later);
      taskIds := store.ZPopPushExists(Key(Queued, queue), Key(Active, queue), count, Unbounded, now,
                                      Some(Third(Key(Scheduled, queue), later)));
    }

    /** `_process_from_queue`, with a count of -1 when the queue lock was refused. A call that raises
    nothing takes the popped tasks out of ACTIVE exactly once, counts those that were executed and
    gives the queue lock back. What others do before the pop is what they did before the call, as
    nothing in the store is read before it. */
    method ProcessFromQueue(queue: Queue, semaphore: Semaphores.Semaphore, now: real, later: real, clock: real)
      returns (taskIds: seq<Id>, processed: int, raised: bool, ghost made: seq<Departure>,
               ghost records: map<Id, Record>, ghost popped: Db)
      requires store.Valid() && held == {}
      modifies this`departures, this`held, this`executed, store, semaphore
      ensures store.Valid()
      ensures departures == old(departures) + made && AreProper(made)
      ensures var answer := Semaphores.Acquire(old(semaphore.Value()), id, Limit(queue), activeTimeout, now, clock).1;
              processed == -1 <==> Limit(queue) != 0 && !answer.acquired
      ensures processed >= 0 && !raised && Limit(queue) != 0 ==> Semaphores.Worker(id) !in semaphore.locks
      ensures processed == -1 ==>
                !raised && taskIds == [] && made == [] && store.Value() == old(store.Value())
      ensures processed >= 0 ==>
                var count := QueueNames.LastSize(QueueNames.Parts(queue), batchQueues, 1);
                && taskIds == PopQueued(old(store.Value()), queue, count, now, later).1
                && IsPopped(old(store.Value()), popped, queue, count, now, later)
      ensures processed >= 0 && taskIds == [] ==> store.Value() == popped
      ensures processed >= 0 && !raised ==>
                && multiset(GoneIds(made)) == multiset(DataIds(records, taskIds))
                && (OwnRecords(records) ==> multiset(GoneIds(made)) == multiset(taskIds))
                && processed == |ExecutedIds(made)| && executed == old(executed) + ExecutedIds(made)
    {
      made, records, raised, popped := [], map[], false, store.Value();
      var batchSize := QueueNames.QueueBatchSize(queue, batchQueues);
      var size := QueueWorkers(queue);
      if size != 0 {
        var acquired, count := semaphore.TryAcquire(id, size, activeTimeout, now, clock);
        if !acquired {
          return [], -1, false, [], map[], store.Value();
        }
      }
      taskIds := PopBatch(queue, batchSize, now, later);
      popped := store.Value();
      processed := 0;
      if taskIds != [] {
        Others();
        records := store.records;
        processed, raised, made := ProcessQueueTasks(queue, taskIds);
        if raised {
          return;
        }
      }
      if OwnRecords(records) { OwnDataIds(records, taskIds); }
      if size != 0 {
        OthersAt(semaphore);
        var end: real := *;
        semaphore.ReleaseLock(id, end);
      }
    }

    // ---- expired tasks ------------------------------------------------------------------------

    /** `_worker_queue_expired_tasks` when nothing disturbs it: one pass as ExpiryLaws has it. */
    method QueueExpiredTasks(queues: seq<Queue>, now: real, batch: int) returns (raised: bool)
      requires store.Valid() && ListsActive(store.Value(), queues)
      modifies store
      ensures store.Valid()
      ensures var before, cutoff := old(store.Value()), now - activeTimeout;
              && store.Value() == Requeued(before, ExpiredBatch(before, queues, cutoff, batch), now)
              && ExpiryLaws.IsPass(before, store.Value(), cutoff, batch)
    {
      ghost var before := store.Value();
      var listed := store.GetExpiredTasks(queues, now - activeTimeout, batch);
      raised := false;
      var i := 0;
      while i < |listed| && !raised
        invariant 0 <= i <= |listed|
        invariant store.Valid()
        invariant Requeued(before, listed, now)
               == if raised then store.Value() else Requeued(store.Value(), listed[i..], now)
      {
        raised := ExpireTask(listed[i].0, listed[i].1, now);
        i := i + 1;
      }
    }

    /** One listed task; `raised` is the TaskNotFound of the removal. */
    method ExpireTask(queue: Queue, x: Id, now: real) returns (raised: bool)
      requires store.Valid()
      modifies store
      ensures store.Valid()
      ensures var r := ExpireOne(old(store.Value()), queue, x, now);
              raised == r.TaskNotFound? && store.Value() == if r.Ok? then r.value else old(store.Value())
    {
      var score := store.ZScore(Key(Active, queue), x);
      var moved := false;
      if x in store.records && score.Some? && score.value != 0.0 {
        var task := store.records[x];
        if ShouldRetryOn(task, JOB_TIMEOUT) {
          moved := store.MoveTask(task.id, queue, Active, Some(Queued), task.unique, now, Nx);
        } else {
          moved := store.MoveTask(task.id, queue, Active, Some(Error), task.unique, now, Plain);
        }
      }
      if !moved && x !in store.records {
        moved := store.MoveTask(x, queue, Active, None, false, now, Plain);
        return !moved;
      }
      return false;
    }

    // ---- periodic tasks -------------------------------------------------------------------------

    /** `_queue_periodic_tasks` for one function: unless its schedule has ended its task is queued,
    active or scheduled afterwards, and one that was there already is left alone. A score of 0 counts
    as none. */
    method QueuePeriodicTask(queue: Queue, task: Record, utc: int, now: real)
      requires store.Valid() && task.func in periodic
      modifies store
      ensures store.Valid()
      ensures periodic[task.func].Next(utc).Some? ==>
                IsRequested(store.Value(), queue, task.id) || store.Value().Has(Active, queue, task.id)
      ensures forall s: State :: !s.Error? && old(store.Value()).Has(s, queue, task.id)
                                 && old(store.Value()).Z(Key(s, queue))[task.id] != 0.0
                                 ==> store.Value() == old(store.Value())
      ensures periodic[task.func].Next(utc).Some?
              && (forall s: State :: !s.Error? && old(store.Value()).Has(s, queue, task.id)
                                     ==> old(store.Value()).Z(Key(s, queue))[task.id] == 0.0)
              ==> IsDelayed(old(store.Value()), store.Value(), queue, task.id,
                            Some(periodic[task.func].Next(utc).value as real / 1_000_000.0), now)
    {
      var queued := store.ZScore(Key(Queued, queue), task.id);
      var active := store.ZScore(Key(Active, queue), task.id);
      var scheduled := store.ZScore(Key(Scheduled, queue), task.id);
      assert old(store.Value()).Has(Queued, queue, task.id) <==> queued.Some?;
      assert old(store.Value()).Has(Active, queue, task.id) <==> active.Some?;
      assert old(store.Value()).Has(Scheduled, queue, task.id) <==> scheduled.Some?;
      if queued !in {None, Some(0.0)} || active !in {None, Some(0.0)} || scheduled !in {None, Some(0.0)} {
        return;
      }
      var when := QueueForNextPeriod(queue, task, utc, now);
    }
  }
}
