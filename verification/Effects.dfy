/** The effect of a step on the store: nothing, or one of seven operations. Properties of the
stored data alone are proved once for each operation. */
module Effects {
  import opened SortedSets
  import opened Wrappers
  import opened TaskDb
  import opened ScriptLaws
  import opened Protocol

  datatype Op =
    | Nothing
    | Delaying(queue: Queue, record: Record, state: State, score: real)
    | Moving(id: Id, queue: Queue, from: State, to: Option<State>, unique: bool, when: real, mode: Mode)
    | Taking(queue: Queue, count: int, now: real, later: real)
    | Queueing(queue: Queue, count: int, now: real)
    | Beating(queue: Queue, ids: set<Id>, now: real)
    | Recording(id: Id, execution: Execution, maxStored: nat)
    | Rescheduled(queue: Queue, id: Id, when: real)

  predicate WellFormed(op: Op) {
    op.Moving? ==> MoveMode(op.mode) && op.to != Some(op.from) && !op.from.Queued? && op.to != Some(Active)
  }

  function ApplyOp(db: Db, op: Op): Db
    requires WellFormed(op)
  {
    match op
    case Nothing => db
    case Delaying(queue, record, state, score) => Delay(db, queue, record, state, score)
    case Moving(id, queue, from, to, unique, when, mode) =>
      var r := Move(db, id, queue, from, to, unique, when, mode);
      if r.Ok? then r.value else db
    case Taking(queue, count, now, later) => PopQueued(db, queue, count, now, later).0
    case Queueing(queue, count, now) => QueueDue(db, queue, count, now).0
    case Beating(queue, ids, now) => Heartbeat(db, queue, ids, now)
    case Recording(id, execution, maxStored) => Recorded(db, id, execution, maxStored)
    case Rescheduled(queue, id, when) =>
      var r := Reschedule(db, queue, id, when);
      if r.NotScheduled? then db else r.db
  }

  function DelayOp(p: Params, r: Record, due: Option<real>, now: real): Op {
    var (state, score) := DelayTarget(due, now);
    Delaying(p.home(r.id), r.(scheduledAt := score), state, score)
  }

  ghost function EffectOf(p: Params, s: Sys, step: Step): (op: Op)
    requires Enabled(p, s, step)
    ensures WellFormed(op)
  {
    match step
    case DelayTask(r, due, now) => DelayOp(p, r, due, now)
    case RetryTask(id, now) => Moving(id, p.home(id), Error, Some(Queued), p.unique(id), now, Plain)
    case CancelTask(id) => Moving(id, p.home(id), Scheduled, None, p.unique(id), s.clock, Plain)
    case DeleteTask(id) => Moving(id, p.home(id), Error, None, p.unique(id), s.clock, Plain)
    case UpdateScheduled(id, when) => Op.Rescheduled(p.home(id), id, when)
    case Pop(w, queue, count, now, later) => Taking(queue, count, now, later)
    case CleanUp(w, id) =>
      var broken := s.workers[w].tasks[id];
      Moving(broken.dataId, s.workers[w].queue, Active, None, broken.unique, s.clock, Plain)
    case LockMiss(w, id, when) =>
      var r := s.workers[w].tasks[id].record;
      Moving(r.id, s.workers[w].queue, Active, Some(Scheduled), r.unique, when, Min)
    case Begin(w, id, next, now) =>
      if next.None? then Nothing else DelayOp(p, s.workers[w].tasks[id].record.(id := id), next, now)
    case Beat(w, ids, now) => Beating(s.workers[w].queue, ids, now)
    case StoreFailure(w, id, e) => Recording(id, e, s.workers[w].tasks[id].record.maxStored)
    case Finish(w, id, decision, now) =>
      var r := s.workers[w].tasks[id].record;
      if decision.Done? then Moving(r.id, s.workers[w].queue, Active, None, r.unique, now, Plain)
      else Moving(r.id, s.workers[w].queue, Active, Some(decision.state), r.unique, decision.when, Plain)
    case QueueScheduled(queue, count, now) => Queueing(queue, count, now)
    case CleanUpExpired =>
      var (q, x) := s.pass.value.todo[0];
      Moving(x, q, Active, None, false, s.pass.value.now, Plain)
    case MoveExpired(retriable) =>
      var r := s.pass.value.probe.record;
      Moving(r.id, s.pass.value.todo[0].0, Active, Some(if retriable then Queued else Error), r.unique,
             s.pass.value.now, if retriable then Nx else Plain)
    case _ => Nothing
  }

  predicate IsMoveStep(step: Step) {
    step.CleanUp? || step.LockMiss? || step.Finish? || step.CleanUpExpired? || step.MoveExpired?
  }

  /** The steps of workers and passes that move a task. */
  lemma MoveStepAppliesEffect(p: Params, s: Sys, step: Step)
    requires Enabled(p, s, step) && IsMoveStep(step)
    ensures Apply(p, s, step).db == ApplyOp(s.db, EffectOf(p, s, step))
  {
    match step
    case Finish(w, id, decision, now) => FinishAppliesEffect(p, s, w, id, decision, now);
    case _ =>
  }

  lemma FinishAppliesEffect(p: Params, s: Sys, w: WorkerId, id: Id, decision: Decision, now: real)
    requires Enabled(p, s, Finish(w, id, decision, now))
    ensures Finishing(s, w, id, decision, now).db == ApplyOp(s.db, EffectOf(p, s, Finish(w, id, decision, now)))
  {}

  lemma OtherStepAppliesEffect(p: Params, s: Sys, step: Step)
    requires Enabled(p, s, step) && !IsMoveStep(step)
    ensures Apply(p, s, step).db == ApplyOp(s.db, EffectOf(p, s, step))
  {}

  /** The store after a step is the store after its operation. */
  lemma StepAppliesEffect(p: Params, s: Sys, step: Step)
    requires Enabled(p, s, step)
    ensures Apply(p, s, step).db == ApplyOp(s.db, EffectOf(p, s, step))
  {
    if IsMoveStep(step) { MoveStepAppliesEffect(p, s, step); } else { OtherStepAppliesEffect(p, s, step); }
  }
}
