/** The Redis data of TaskTiger as a value, and what each Lua script and each MULTI block
makes of it. The class in RedisStore.dfy performs the same scripts step by step. */
module TaskDb {
  import opened SortedSets
  import opened Wrappers
  import Retry

  type Queue = string

  datatype State = Queued | Active | Scheduled | Error

  /** The key of one sorted set of task ids, `<state>:<queue>`. */
  datatype Key = Key(state: State, queue: Queue)

  /** The stored form of a task. `lock` is the id of the lock the task asks for; `retryOn` is
  the set of exceptions covered by a given `retry_on` list; a `maxStored` of 0 means that no
  limit applies. */
  datatype Record = Record(
    id: Id,
    func: string,
    unique: bool,
    lock: Option<nat>,
    retryMethod: Option<Retry.Method>,
    retryOn: Option<set<string>>,
    maxStored: nat,
    scheduledAt: real,
    payload: string)

  const JOB_TIMEOUT := "tasktiger.exceptions:JobTimeoutException"

  /** `Task.should_retry_on`. */
  predicate ShouldRetryOn(record: Record, exception: string) {
    record.retryOn.Some? && exception in record.retryOn.value
  }

  /** One stored failure. `retry` is present when the task raised RetryException. */
  datatype Execution = Execution(exception: string, retry: Option<RetryRequest>, failedAt: real)

  datatype RetryRequest = RetryRequest(retryMethod: Option<Retry.Method>, logError: bool)

  /** How ZADD treats a member that is already there. */
  datatype Mode = Plain | Nx | Xx | Min | Max

  function Added(z: ZSet, score: real, id: Id, mode: Mode): ZSet {
    match mode
    case Plain => z[id := score]
    case Nx => if id in z then z else z[id := score]
    case Xx => if id in z then z[id := score] else z
    case Min => z[id := if id in z && z[id] < score then z[id] else score]
    case Max => z[id := if id in z && z[id] > score then z[id] else score]
  }

  function Lookup(zsets: map<Key, ZSet>, k: Key): ZSet {
    if k in zsets then zsets[k] else map[]
  }

  /** Redis has no empty sorted sets: the key goes with the last member. */
  function Stored(zsets: map<Key, ZSet>, k: Key, z: ZSet): map<Key, ZSet> {
    if z == map[] then zsets - {k} else zsets[k := z]
  }

  /** `index` holds the four sets of queue names, a name being paired with its state. */
  datatype Db = Db(
    zsets: map<Key, ZSet>,
    index: set<Key>,
    records: map<Id, Record>,
    executions: map<Id, seq<Execution>>,
    counts: map<Id, nat>)
  {
    function Z(k: Key): ZSet {
      Lookup(zsets, k)
    }

    function Put(k: Key, z: ZSet): Db {
      this.(zsets := Stored(zsets, k, z))
    }

    predicate Has(state: State, queue: Queue, id: Id) {
      id in Z(Key(state, queue))
    }

    function History(id: Id): seq<Execution> {
      if id in executions then executions[id] else []
    }

    function Count(id: Id): nat {
      if id in counts then counts[id] else 0
    }
  }

  const Empty := Db(map[], {}, map[], map[], map[])

  // ---- move_task.lua ------------------------------------------------------------------

  function Entered(db: Db, id: Id, k: Key, when: real, mode: Mode): Db {
    db.Put(k, Added(db.Z(k), when, id, mode)).(index := db.index + {k})
  }

  function Left(db: Db, id: Id, k: Key): Db {
    db.Put(k, db.Z(k) - {id})
  }

  predicate Elsewhere(db: Db, id: Id, queue: Queue, from: State) {
    exists s: State :: s != from && db.Has(s, queue, id)
  }

  /** What is deleted when a task leaves `from` for good. A unique task keeps its executions
  while it is in the error set, unless it is the error set it leaves, and its record while it
  is in any other set of the queue; every other task loses both. */
  function Discarded(db: Db, id: Id, queue: Queue, from: State, unique: bool): Db {
    var dropHistory := !unique || from.Error? || !db.Has(Error, queue, id);
    var dropRecord := !unique || !Elsewhere(db, id, queue, from);
    db.(executions := if dropHistory then db.executions - {id} else db.executions,
        counts := if dropHistory then db.counts - {id} else db.counts,
        records := if dropRecord then db.records - {id} else db.records)
  }

  function Unindexed(db: Db, k: Key): Db {
    if db.Z(k) == map[] then db.(index := db.index - {k}) else db
  }

  predicate MoveMode(mode: Mode) {
    mode.Plain? || mode.Nx? || mode.Min?
  }

  /** `Task._move`: from one state to another, or out of the queue when `to` is None. */
  function Move(db: Db, id: Id, queue: Queue, from: State, to: Option<State>,
                unique: bool, when: real, mode: Mode): Result<Db>
    requires MoveMode(mode)
  {
    if !db.Has(from, queue, id) then TaskNotFound
    else
      var entered := if to.Some? then Entered(db, id, Key(to.value, queue), when, mode) else db;
      var left := Left(entered, id, Key(from, queue));
      var kept := if to.None? then Discarded(left, id, queue, from, unique) else left;
      Ok(Unindexed(kept, Key(from, queue)))
  }

  // ---- zpoppush -----------------------------------------------------------------------

  function Fresh(members: seq<Id>, destination: ZSet): seq<Id> {
    if members == [] then []
    else if members[0] in destination then Fresh(members[1..], destination)
    else [members[0]] + Fresh(members[1..], destination)
  }

  function Elements(s: seq<Id>): set<Id> {
    set x | x in s
  }

  /** The third set of the "if exists" form: ids that collided, at the smaller score. */
  function Lowered(z: ZSet, ids: set<Id>, score: real): ZSet {
    map x | x in z.Keys + ids :: if x !in ids || (x in z && z[x] < score) then z[x] else score
  }

  datatype Third = Third(key: Key, score: real)

  /** `members` leave the source; those of them in `moved` enter the destination. */
  function Transferred(db: Db, source: Key, destination: Key, members: set<Id>, moved: set<Id>,
                       newScore: real, third: Option<Third>): Db
  {
    var popped := Stored(db.zsets, source, db.Z(source) - members);
    var pushed := Stored(popped, destination, db.Z(destination) + map x | x in moved :: newScore);
    if third.None? then db.(zsets := pushed)
    else
      var Third(key, score) := third.value;
      db.(zsets := Stored(pushed, key, Lowered(db.Z(key), members - moved, score)))
  }

  /** Pops up to `count` members with a score within `bound` from `source`. A member that
  `destination` does not hold enters it at `newScore` and is returned; one it does hold is
  left there and, given a third set, added to that at the smaller score. */
  function PopPush(db: Db, source: Key, destination: Key, count: int, bound: Bound,
                   newScore: real, third: Option<Third>): (Db, seq<Id>)
  {
    var members := RangeByScore(db.Z(source), bound, count);
    if members == [] then (db, [])
    else
      var moved := Fresh(members, db.Z(destination));
      var after := Transferred(db, source, destination, Elements(members), Elements(moved), newScore, third);
      (Reindexed(after, source, destination, third), moved)
  }

  /** The "update_sets" action after a pop that found members. */
  function Reindexed(db: Db, source: Key, destination: Key, third: Option<Third>): Db {
    var unindexed := Unindexed(db, source);
    unindexed.(index := unindexed.index + {destination}
                      + (if third.Some? && db.Z(third.value.key) != map[] then {third.value.key} else {}))
  }

  /** `_process_from_queue` takes up to `count` queued tasks; ids that are already active
  are scheduled for `later` instead. */
  function PopQueued(db: Db, queue: Queue, count: int, now: real, later: real): (Db, seq<Id>) {
    PopPush(db, Key(Queued, queue), Key(Active, queue), count, Unbounded, now,
            Some(Third(Key(Scheduled, queue), later)))
  }

  /** `_worker_queue_scheduled_tasks` queues up to `count` tasks that are due. */
  function QueueDue(db: Db, queue: Queue, count: int, now: real): (Db, seq<Id>) {
    PopPush(db, Key(Scheduled, queue), Key(Queued, queue), count, AtMost(now), now, None)
  }

  // ---- the remaining scripts and MULTI blocks ------------------------------------------

  /** `Task.delay`: store the record and add the id, keeping the score of an id already there. */
  function Delay(db: Db, queue: Queue, record: Record, state: State, score: real): Db {
    Entered(db.(records := db.records[record.id := record]), record.id, Key(state, queue), score, Nx)
  }

  /** `Worker.heartbeat`: a plain ZADD, which leaves the index sets alone. */
  function Heartbeat(db: Db, queue: Queue, ids: set<Id>, now: real): Db {
    var k := Key(Active, queue);
    db.Put(k, db.Z(k) + map x | x in ids :: now)
  }

  /** `Worker.store_task_execution` for one task. */
  function Recorded(db: Db, id: Id, execution: Execution, maxStored: nat): Db {
    db.(counts := db.counts[id := db.Count(id) + 1],
        executions := db.executions[id := Newest(db.History(id) + [execution], maxStored)])
  }

  /** LTRIM -n -1, which a limit of 0 leaves out. */
  function Newest(history: seq<Execution>, limit: nat): seq<Execution> {
    if limit == 0 || |history| <= limit then history else history[|history| - limit..]
  }

  /** `update_scheduled_time` has three outcomes: the task is not scheduled, it was updated, or
  its score was updated and then the script failed because the task has no record. */
  datatype Rescheduling = NotScheduled | Rescheduled(db: Db) | NoRecord(db: Db)

  function Reschedule(db: Db, queue: Queue, id: Id, when: real): Rescheduling {
    var k := Key(Scheduled, queue);
    if id !in db.Z(k) then NotScheduled
    else
      var moved := db.Put(k, db.Z(k)[id := when]);
      if id !in db.records then NoRecord(moved)
      else Rescheduled(moved.(records := db.records[id := db.records[id].(scheduledAt := when)]))
  }

  function Pairs(queue: Queue, ids: seq<Id>): seq<(Queue, Id)> {
    seq(|ids|, i requires 0 <= i < |ids| => (queue, ids[i]))
  }

  function ExpiredIn(db: Db, queue: Queue, cutoff: real, limit: int): seq<Id> {
    RangeByScore(NonNegative(db.Z(Key(Active, queue))), AtMost(cutoff), limit)
  }

  /** GET_EXPIRED_TASKS, visiting the active queues in the order `queues`. */
  function ExpiredBatch(db: Db, queues: seq<Queue>, cutoff: real, batch: int): seq<(Queue, Id)> {
    if queues == [] then []
    else
      var ids := ExpiredIn(db, queues[0], cutoff, batch);
      if batch - |ids| <= 0 then Pairs(queues[0], ids)
      else Pairs(queues[0], ids) + ExpiredBatch(db, queues[1..], cutoff, batch - |ids|)
  }

  /** SMEMBERS of the active index set, in some order. */
  ghost predicate ListsActive(db: Db, queues: seq<Queue>) {
    NoRepeats(queues) && forall q :: q in queues <==> Key(Active, q) in db.index
  }

  /** What the expiry pass makes of one listed task: it is queued again if it may be retried,
  keeping a place it already has, and fails otherwise. `Task.from_id` takes a score of 0 for a
  missing one; a task that cannot be loaded or moved is removed if it has no record, and
  TaskNotFound is what that removal may raise. */
  function ExpireOne(db: Db, queue: Queue, x: Id, now: real): Result<Db> {
    if x in db.records then
      if db.Has(Active, queue, x) && db.Z(Key(Active, queue))[x] != 0.0 then
        var r := db.records[x];
        var moved := if ShouldRetryOn(r, JOB_TIMEOUT)
                     then Move(db, r.id, queue, Active, Some(Queued), r.unique, now, Nx)
                     else Move(db, r.id, queue, Active, Some(Error), r.unique, now, Plain);
        if moved.Ok? then moved else Ok(db)
      else Ok(db)
    else Move(db, x, queue, Active, None, false, now, Plain)
  }

  /** A pass over `todo` that nothing disturbs. */
  function Requeued(db: Db, todo: seq<(Queue, Id)>, now: real): Db
    decreases |todo|
  {
    if todo == [] then db
    else
      var r := ExpireOne(db, todo[0].0, todo[0].1, now);
      if r.TaskNotFound? then db else Requeued(r.value, todo[1..], now)
  }
}
