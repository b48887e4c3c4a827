/** The commands of a worker are steps of the protocol: what the methods of Workers.Worker do to the
store is what the steps of Protocol do to it. */
module WorkerSteps {
  import opened SortedSets
  import opened Wrappers
  import opened TaskDb
  import opened Protocol
  import opened Decisions
  import opened Workers
  import Retry
  import Schedule

  /** After a move out of ACTIVE the worker is done with the task; TaskNotFound ends the worker. */
  ghost predicate IsDeparture(s: Sys, after: Sys, w: WorkerId, id: Id, d: Departure)
    requires d.to.Some? ==> MoveMode(d.to.value.mode)
  {
    match MovedOut(s.db, d)
    case Ok(db) => after.db == db && w in after.workers && !after.Holds(w, id)
    case TaskNotFound => after.db == s.db && w !in after.workers
  }

  /** ZPOPPUSH in `ProcessFromQueue`. */
  lemma PopIsStep(p: Params, s: Sys, w: WorkerId, queue: Queue, count: int, now: real, later: real)
    requires w !in s.workers && Reading(s, now)
    ensures var step, (db, taskIds) := Pop(w, queue, count, now, later), PopQueued(s.db, queue, count, now, later);
            && Enabled(p, s, step)
            && var after := Apply(p, s, step);
            && after.db == db && (forall x :: after.Holds(w, x) <==> x in taskIds)
  {}

  /** MGET in `LoadTasks`: the tasks that are loaded, and those that are about to be removed. */
  lemma LoadIsStep(p: Params, s: Sys, w: WorkerId, id: Id)
    requires Enabled(p, s, Load(w)) && s.Holds(w, id)
    ensures var after, records := Apply(p, s, Load(w)), s.db.records;
            && after.db == s.db && after.Holds(w, id)
            && var progress := after.workers[w].tasks[id];
            && (if id in records && records[id].id == id then progress == Loaded(records[id])
                else progress.Broken? && progress.dataId == DataId(records, id))
  {}

  /** `RemoveBroken`, for a task whose record was `record` when it was loaded. */
  lemma RemovalIsStep(p: Params, s: Sys, w: WorkerId, id: Id, record: Option<Record>)
    requires s.Holds(w, id)
    requires s.workers[w].tasks[id]
          == if record.Some? then Broken(record.value.id, record.value.unique) else Broken(id, false)
    ensures Enabled(p, s, CleanUp(w, id))
    ensures IsDeparture(s, Apply(p, s, CleanUp(w, id)), w, id, Removed(s.workers[w].queue, id, record))
  {}

  /** `TryReady` of a task whose lock is taken. */
  lemma MissIsStep(p: Params, s: Sys, w: WorkerId, id: Id, when: real)
    requires Waiting(s, w, id)
    ensures var r := s.workers[w].tasks[id].record;
            && Enabled(p, s, LockMiss(w, id, when))
            && IsDeparture(s, Apply(p, s, LockMiss(w, id, when)), w, id, Missed(s.workers[w].queue, r, when))
  {}

  /** `PrepareExecution` of a periodic task, and the start of its run. */
  lemma PreparationIsStep(p: Params, s: Sys, w: WorkerId, id: Id, plan: Schedule.Plan, utc: int, now: real)
    requires Waiting(s, w, id) && Reading(s, now) && p.unique(id)
    requires s.workers[w].tasks[id].record.id == id && s.workers[w].queue == p.home(id)
    ensures var r, time := s.workers[w].tasks[id].record, plan.Next(utc);
            var step := Begin(w, id, if time.Some? then Some(Schedule.Timestamp(time.value)) else None, now);
            && Enabled(p, s, step) && Working(Apply(p, s, step), w, id)
            && Apply(p, s, step).db == if time.Some? then DelayedUntil(s.db, p.home(id), r, time.value, now) else s.db
  {
    var r := s.workers[w].tasks[id].record;
    assert r.(id := id) == r;
  }

  /** `FinishTaskProcessing`: the last move is a Finish step with the decision of Decide. */
  lemma LastMoveIsStep(p: Params, s: Sys, w: WorkerId, id: Id, default: Retry.Method, success: bool, now: real)
    requires Working(s, w, id) && Reading(s, now) && s.workers[w].tasks[id].startedAt <= now
    ensures var r := s.workers[w].tasks[id].record;
            var decision := Decide(r, default, success, LastExecution(s.db, r.id), s.db.Count(r.id), now);
            && Enabled(p, s, Finish(w, id, decision, now))
            && IsDeparture(s, Apply(p, s, Finish(w, id, decision, now)), w, id,
                           Finished(s.workers[w].queue, r, decision))
  {
    var r := s.workers[w].tasks[id].record;
    var decision := Decide(r, default, success, LastExecution(s.db, r.id), s.db.Count(r.id), now);
    FinishIsStep(p, s, w, id, decision, now);
  }

  /** A TaskNotFound that is raised before any move, by `n_executions` for a missing record, ends the
  worker: a Die step. */
  lemma RaiseIsStep(p: Params, s: Sys, w: WorkerId)
    requires w in s.workers
    ensures Enabled(p, s, Die(w))
    ensures Apply(p, s, Die(w)).db == s.db && w !in Apply(p, s, Die(w)).workers
  {}

  lemma FinishIsStep(p: Params, s: Sys, w: WorkerId, id: Id, decision: Decision, now: real)
    requires Enabled(p, s, Finish(w, id, decision, now))
    ensures IsDeparture(s, Apply(p, s, Finish(w, id, decision, now)), w, id,
                        Finished(s.workers[w].queue, s.workers[w].tasks[id].record, decision))
  {
    var r, q := s.workers[w].tasks[id].record, s.workers[w].queue;
    if decision.Done? {
      assert Move(s.db, r.id, q, Active, None, r.unique, now, Plain)
          == Move(s.db, r.id, q, Active, None, r.unique, 0.0, Plain);
    }
  }

  /** The steps with which a pass treats the first task on its list. */
  function Treated(s: Sys): Sys
    requires Pending(s)
  {
    var probed := Probing(s);
    var tried := if probed.pass.value.probe.Found?
                 then Expiring(probed, ShouldRetryOn(probed.pass.value.probe.record, JOB_TIMEOUT)) else probed;
    if !Pending(tried) || !tried.pass.value.probe.Missing? then tried
    else
      var checked := Checking(tried);
      if Pending(checked) && checked.pass.value.probe.Gone? then CleaningUp(checked) else checked
  }

  /** `ExpireTask`: undisturbed, they do to the store what ExpireOne does, and the pass goes on with
  the next task unless the removal raised TaskNotFound. */
  lemma ExpiryIsSteps(s: Sys)
    requires Pending(s) && s.pass.value.probe.Unprobed?
    ensures var (queue, x) := s.pass.value.todo[0];
            match ExpireOne(s.db, queue, x, s.pass.value.now)
            case Ok(db) => Treated(s).db == db
                           && Treated(s).pass == Some(s.pass.value.(todo := s.pass.value.todo[1..]))
            case TaskNotFound => Treated(s).db == s.db && Treated(s).pass == None
  {}
}
