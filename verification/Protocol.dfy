/** TaskTiger at work: users, workers, the scheduling pass and the expiry pass share one
store. A step is one script or one MULTI block, so the steps of different processes
interleave freely between them. */
module Protocol {
  import opened SortedSets
  import opened Wrappers
  import opened TaskDb

  type WorkerId = nat

  /** What a program fixes once: the queue an id lives in, whether it is unique, the limit on
  its stored executions, and ACTIVE_TASK_UPDATE_TIMEOUT. */
  datatype Params = Params(home: Id -> Queue, unique: Id -> bool, maxStored: Id -> nat, timeout: real)

  /** How far a worker is with a task it popped. `Broken` is a task whose record was not found
  or carries another id. */
  datatype Progress =
    | Popped
    | Broken(dataId: Id, unique: bool)
    | Loaded(record: Record)
    | Running(record: Record, startedAt: real, failures: nat)

  datatype Work = Work(queue: Queue, tasks: map<Id, Progress>)

  /** What the expiry pass knows about the first task on its list. */
  datatype Probe = Unprobed | Found(record: Record) | Missing | Gone

  datatype Pass = Pass(now: real, todo: seq<(Queue, Id)>, probe: Probe)

  /** What happened so far, for stating properties; no step depends on it. */
  datatype Ledger = Ledger(
    delayed: set<Id>,
    latest: map<Id, Record>,
    log: map<Id, seq<Execution>>,
    starts: map<Id, nat>,
    firstFinish: map<Id, real>)

  /** `workers` are the live workers that are processing a batch. */
  datatype Sys = Sys(
    db: Db,
    clock: real,
    workers: map<WorkerId, Work>,
    pass: Option<Pass>,
    ledger: Ledger)
  {
    predicate Holds(w: WorkerId, id: Id) {
      w in workers && id in workers[w].tasks
    }

    predicate Held(id: Id) {
      exists w :: w in workers && Holds(w, id)
    }
  }

  const Start := Sys(Empty, 0.0, map[], None, Ledger({}, map[], map[], map[], map[]))

  /** What `_finish_task_processing` does with a task: remove it, or move it on. */
  datatype Decision = Done | MoveTo(state: State, when: real)

  datatype Step =
    | Tick(clock: real)
    // users
    | DelayTask(record: Record, due: Option<real>, now: real)
    | RetryTask(id: Id, now: real)
    | CancelTask(id: Id)
    | DeleteTask(id: Id)
    | UpdateScheduled(id: Id, when: real)
    // a worker's batch
    | Pop(w: WorkerId, queue: Queue, count: int, now: real, later: real)
    | Load(w: WorkerId)
    | CleanUp(w: WorkerId, id: Id)
    | LockMiss(w: WorkerId, id: Id, when: real)
    | Begin(w: WorkerId, id: Id, next: Option<real>, now: real)
    | Beat(w: WorkerId, ids: set<Id>, now: real)
    | StoreFailure(w: WorkerId, id: Id, execution: Execution)
    | Finish(w: WorkerId, id: Id, decision: Decision, now: real)
    | Release(w: WorkerId)
    | Die(w: WorkerId)
    // maintenance
    | QueueScheduled(queue: Queue, count: int, now: real)
    | ListExpired(queues: seq<Queue>, batch: int, now: real)
    | ProbeExpired
    | CheckRecord
    | CleanUpExpired
    | MoveExpired(retriable: bool)
    | EndPass

  /** A clock reading made at or before the step. */
  predicate Reading(s: Sys, now: real) {
    0.0 < now <= s.clock
  }

  predicate Fits(p: Params, id: Id, r: Record) {
    r.id == id && r.unique == p.unique(id) && r.maxStored == p.maxStored(id)
  }

  predicate AllPopped(tasks: map<Id, Progress>) {
    forall x :: x in tasks ==> tasks[x].Popped?
  }

  function ScheduledFor(s: Sys, q: Queue, x: Id): real {
    var z := s.db.Z(Key(Scheduled, q));
    if x in z then z[x] else 0.0
  }

  predicate Working(s: Sys, w: WorkerId, id: Id) {
    s.Holds(w, id) && s.workers[w].tasks[id].Running?
  }

  predicate Waiting(s: Sys, w: WorkerId, id: Id) {
    s.Holds(w, id) && s.workers[w].tasks[id].Loaded?
  }

  predicate Pending(s: Sys) {
    s.pass.Some? && s.pass.value.todo != []
  }

  ghost predicate Enabled(p: Params, s: Sys, step: Step) {
    match step
    case Tick(clock) => clock >= s.clock
    case DelayTask(r, _, now) =>
      Reading(s, now) && Fits(p, r.id, r) && (!p.unique(r.id) ==> r.id !in s.ledger.delayed)
    case RetryTask(_, now) => Reading(s, now)
    case CancelTask(_) => true
    case DeleteTask(_) => true
    case UpdateScheduled(_, _) => true
    case Pop(w, _, _, now, _) => w !in s.workers && Reading(s, now)
    case Load(w) => w in s.workers && AllPopped(s.workers[w].tasks)
    case CleanUp(w, id) => s.Holds(w, id) && s.workers[w].tasks[id].Broken?
    case LockMiss(w, id, _) => Waiting(s, w, id)
    case Begin(w, id, next, now) => Waiting(s, w, id) && Reading(s, now) && (next.Some? ==> p.unique(id))
    case Beat(w, ids, now) => w in s.workers && ids <= s.workers[w].tasks.Keys && Reading(s, now)
    case StoreFailure(w, id, _) => Working(s, w, id)
    case Finish(w, id, decision, now) =>
      && Working(s, w, id) && Reading(s, now) && s.workers[w].tasks[id].startedAt <= now
      && (decision.MoveTo? ==> decision.state.Scheduled? || decision.state.Error?)
    case Release(w) => w in s.workers && s.workers[w].tasks == map[]
    case Die(w) => w in s.workers
    case QueueScheduled(_, _, now) => Reading(s, now)
    case ListExpired(queues, _, now) => s.pass.None? && ListsActive(s.db, queues) && Reading(s, now)
    case ProbeExpired => Pending(s) && s.pass.value.probe.Unprobed?
    case CheckRecord => Pending(s) && s.pass.value.probe.Missing?
    case CleanUpExpired => Pending(s) && s.pass.value.probe.Gone?
    case MoveExpired(_) => Pending(s) && s.pass.value.probe.Found?
    case EndPass => s.pass.Some?
  }

  // ---- what each step does -------------------------------------------------------------

  /** `Task.delay` queues at once unless the given time is still ahead. */
  function DelayTarget(due: Option<real>, now: real): (State, real) {
    if due.None? || due.value <= now then (Queued, now) else (Scheduled, due.value)
  }

  function Delayed(p: Params, s: Sys, r: Record, due: Option<real>, now: real): Sys {
    var (state, score) := DelayTarget(due, now);
    var stored := r.(scheduledAt := score);
    s.(db := Delay(s.db, p.home(r.id), stored, state, score),
       ledger := s.ledger.(delayed := s.ledger.delayed + {r.id}, latest := s.ledger.latest[r.id := stored]))
  }

  /** The log of an id starts afresh when its executions are deleted. */
  function Pruned(ledger: Ledger, db: Db, id: Id): Ledger {
    if id in db.counts then ledger else ledger.(log := ledger.log - {id})
  }

  function WithDb(s: Sys, db: Db, id: Id): Sys {
    s.(db := db, ledger := Pruned(s.ledger, db, id))
  }

  /** A user's move; a task that is not there raises TaskNotFound and changes nothing. */
  function UserMove(p: Params, s: Sys, id: Id, from: State, to: Option<State>, when: real): Sys {
    match Move(s.db, id, p.home(id), from, to, p.unique(id), when, Plain)
    case Ok(db) => WithDb(s, db, id)
    case TaskNotFound => s
  }

  function Dropped(s: Sys, w: WorkerId, id: Id): Sys
    requires w in s.workers
  {
    s.(workers := s.workers[w := s.workers[w].(tasks := s.workers[w].tasks - {id})])
  }

  /** A worker's move out of ACTIVE; TaskNotFound ends the worker. `dataId` is the id in the
  task's data, which is the held id unless the record was damaged. */
  function WorkerMove(s: Sys, w: WorkerId, id: Id, dataId: Id, to: Option<State>, unique: bool,
                      when: real, mode: Mode): Sys
    requires w in s.workers && MoveMode(mode)
  {
    match Move(s.db, dataId, s.workers[w].queue, Active, to, unique, when, mode)
    case Ok(db) => Dropped(WithDb(s, db, dataId), w, id)
    case TaskNotFound => s.(workers := s.workers - {w})
  }

  function Popping(s: Sys, w: WorkerId, queue: Queue, count: int, now: real, later: real): Sys {
    var (db, moved) := PopQueued(s.db, queue, count, now, later);
    if moved == [] then s.(db := db)
    else s.(db := db, workers := s.workers[w := Work(queue, map x | x in Elements(moved) :: Popped)])
  }

  function Fetched(db: Db, id: Id): Progress {
    if id !in db.records then Broken(id, false)
    else if db.records[id].id != id then Broken(db.records[id].id, db.records[id].unique)
    else Loaded(db.records[id])
  }

  function Loading(s: Sys, w: WorkerId): Sys
    requires w in s.workers
  {
    var work := s.workers[w];
    s.(workers := s.workers[w := work.(tasks := map x | x in work.tasks :: Fetched(s.db, x))])
  }

  function Advanced(s: Sys, w: WorkerId, id: Id, progress: Progress): Sys
    requires s.Holds(w, id)
  {
    s.(workers := s.workers[w := s.workers[w].(tasks := s.workers[w].tasks[id := progress])])
  }

  /** `_prepare_execution` and the start of the executor: a periodic task is first delayed for
  its next period. */
  function Beginning(p: Params, s: Sys, w: WorkerId, id: Id, next: Option<real>, now: real): Sys
    requires Waiting(s, w, id)
  {
    var r := s.workers[w].tasks[id].record;
    var s1 := if next.Some? then Delayed(p, s, r.(id := id), next, now) else s;
    var s2 := s1.(ledger := s1.ledger.(starts := s1.ledger.starts[id := Starts(s, id) + 1]));
    Advanced(s2, w, id, Running(r, s.clock, 0))
  }

  function Starts(s: Sys, id: Id): nat {
    if id in s.ledger.starts then s.ledger.starts[id] else 0
  }

  function Logged(ledger: Ledger, id: Id): seq<Execution> {
    if id in ledger.log then ledger.log[id] else []
  }

  function Failing(s: Sys, w: WorkerId, id: Id, e: Execution): Sys
    requires Working(s, w, id)
  {
    var progress := s.workers[w].tasks[id];
    var s1 := s.(db := Recorded(s.db, id, e, progress.record.maxStored),
                 ledger := s.ledger.(log := s.ledger.log[id := Logged(s.ledger, id) + [e]]));
    Advanced(s1, w, id, progress.(failures := progress.failures + 1))
  }

  function Finishing(s: Sys, w: WorkerId, id: Id, decision: Decision, now: real): Sys
    requires Working(s, w, id)
  {
    var r := s.workers[w].tasks[id].record;
    var first := if id in s.ledger.firstFinish then s.ledger.firstFinish
                 else s.ledger.firstFinish[id := now];
    var s1 := s.(ledger := s.ledger.(firstFinish := first));
    match decision
    case Done => WorkerMove(s1, w, id, r.id, None, r.unique, now, Plain)
    case MoveTo(state, when) => WorkerMove(s1, w, id, r.id, Some(state), r.unique, when, Plain)
  }

  function Listing(p: Params, s: Sys, queues: seq<Queue>, batch: int, now: real): Sys {
    s.(pass := Some(Pass(now, ExpiredBatch(s.db, queues, now - p.timeout, batch), Unprobed)))
  }

  /** `Task.from_id`, which takes a score of 0 for a missing one. */
  function Probing(s: Sys): Sys
    requires Pending(s)
  {
    var (queue, id) := s.pass.value.todo[0];
    var z := s.db.Z(Key(Active, queue));
    var probe := if id in s.db.records && id in z && z[id] != 0.0 then Found(s.db.records[id]) else Missing;
    s.(pass := Some(s.pass.value.(probe := probe)))
  }

  function NextExpired(s: Sys): Sys
    requires Pending(s)
  {
    s.(pass := Some(s.pass.value.(todo := s.pass.value.todo[1..], probe := Unprobed)))
  }

  /** The clean-up for tasks without a record looks at the record once more. */
  function Checking(s: Sys): Sys
    requires Pending(s)
  {
    if s.pass.value.todo[0].1 in s.db.records then NextExpired(s)
    else s.(pass := Some(s.pass.value.(probe := Gone)))
  }

  function CleaningUp(s: Sys): Sys
    requires Pending(s)
  {
    var (queue, id) := s.pass.value.todo[0];
    match Move(s.db, id, queue, Active, None, false, s.pass.value.now, Plain)
    case Ok(db) => NextExpired(WithDb(s, db, id))
    case TaskNotFound => s.(pass := None)
  }

  function Expiring(s: Sys, retriable: bool): Sys
    requires Pending(s) && s.pass.value.probe.Found?
  {
    var (queue, id) := s.pass.value.todo[0];
    var r := s.pass.value.probe.record;
    var result := if retriable
                  then Move(s.db, r.id, queue, Active, Some(Queued), r.unique, s.pass.value.now, Nx)
                  else Move(s.db, r.id, queue, Active, Some(Error), r.unique, s.pass.value.now, Plain);
    match result
    case Ok(db) => NextExpired(WithDb(s, db, r.id))
    case TaskNotFound => s.(pass := Some(s.pass.value.(probe := Missing)))
  }

  function Apply(p: Params, s: Sys, step: Step): Sys
    requires Enabled(p, s, step)
  {
    match step
    case Tick(clock) => s.(clock := clock)
    case DelayTask(r, due, now) => Delayed(p, s, r, due, now)
    case RetryTask(id, now) => UserMove(p, s, id, Error, Some(Queued), now)
    case CancelTask(id) => UserMove(p, s, id, Scheduled, None, s.clock)
    case DeleteTask(id) => UserMove(p, s, id, Error, None, s.clock)
    case UpdateScheduled(id, when) => Updating(p, s, id, when)
    case Pop(w, queue, count, now, later) => Popping(s, w, queue, count, now, later)
    case Load(w) => Loading(s, w)
    case CleanUp(w, id) =>
      var broken := s.workers[w].tasks[id];
      WorkerMove(s, w, id, broken.dataId, None, broken.unique, s.clock, Plain)
    case LockMiss(w, id, when) =>
      var r := s.workers[w].tasks[id].record;
      WorkerMove(s, w, id, r.id, Some(Scheduled), r.unique, when, Min)
    case Begin(w, id, next, now) => Beginning(p, s, w, id, next, now)
    case Beat(w, ids, now) => s.(db := Heartbeat(s.db, s.workers[w].queue, ids, now))
    case StoreFailure(w, id, execution) => Failing(s, w, id, execution)
    case Finish(w, id, decision, now) => Finishing(s, w, id, decision, now)
    case Release(w) => s.(workers := s.workers - {w})
    case Die(w) => s.(workers := s.workers - {w})
    case QueueScheduled(queue, count, now) => s.(db := QueueDue(s.db, queue, count, now).0)
    case ListExpired(queues, batch, now) => Listing(p, s, queues, batch, now)
    case ProbeExpired => Probing(s)
    case CheckRecord => Checking(s)
    case CleanUpExpired => CleaningUp(s)
    case MoveExpired(retriable) => Expiring(s, retriable)
    case EndPass => s.(pass := None)
  }

  function Updating(p: Params, s: Sys, id: Id, when: real): Sys {
    match Reschedule(s.db, p.home(id), id, when)
    case NotScheduled => s
    case Rescheduled(db) => s.(db := db)
    case NoRecord(db) => s.(db := db)
  }

  /** A run: the states it goes through and the steps between them. */
  datatype Run = Run(states: seq<Sys>, steps: seq<Step>)

  ghost predicate StepAt(p: Params, run: Run, i: nat)
    requires i < |run.steps| < |run.states|
  {
    Enabled(p, run.states[i], run.steps[i]) && run.states[i + 1] == Apply(p, run.states[i], run.steps[i])
  }

  ghost predicate IsRun(p: Params, run: Run) {
    && |run.states| == |run.steps| + 1
    && run.states[0] == Start
    && forall i :: 0 <= i < |run.steps| ==> StepAt(p, run, i)
  }
}
