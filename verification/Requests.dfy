/** No request is lost, tasks are never queued early, and queued tasks are served in order. */
module Requests {
  import opened SortedSets
  import opened Wrappers
  import opened TaskDb
  import opened ScriptLaws
  import opened Protocol
  import opened Steps
  import opened Effects

  // ---- no lost request -------------------------------------------------------------------

  /** `x` is queued, now or for later. */
  predicate Requested(p: Params, s: Sys, x: Id) {
    s.db.Has(Queued, p.home(x), x) || s.db.Has(Scheduled, p.home(x), x)
  }

  /** The step hands `x` to a worker. */
  predicate HandsOver(s: Sys, step: Step, x: Id) {
    step.Pop? && x in PopQueued(s.db, step.queue, step.count, step.now, step.later).1
  }

  lemma DelayRequests(p: Params, s: Sys, r: Record, due: Option<real>, now: real)
    ensures Requested(p, Delayed(p, s, r, due, now), r.id)
  {
    var (state, score) := DelayTarget(due, now);
    DelayMembers(s.db, p.home(r.id), r.(scheduledAt := score), state, score);
    AddedHasMember(s.db.Z(Key(state, p.home(r.id))), score, r.id, Nx);
  }

  /** A task that is handed over is active from then on, held by the worker that popped it. */
  lemma HandedOverIsHeld(p: Params, s: Sys, step: Step, x: Id)
    requires Enabled(p, s, step) && HandsOver(s, step, x)
    ensures var after := Apply(p, s, step);
            after.Holds(step.w, x) && after.db.Has(Active, step.queue, x)
            && !after.db.Has(Queued, step.queue, x)
  {
    PopOneId(s.db, Key(Queued, step.queue), Key(Active, step.queue), step.count, Unbounded, step.now,
             Some(Third(Key(Scheduled, step.queue), step.later)), x);
  }

  lemma MoveKeepsRequest(p: Params, db: Db, id: Id, queue: Queue, from: State, to: Option<State>,
                         unique: bool, when: real, mode: Mode, x: Id)
    requires MoveMode(mode) && to != Some(from)
    requires !from.Queued? && (from.Scheduled? ==> x != id)
    requires db.Has(Queued, p.home(x), x) || db.Has(Scheduled, p.home(x), x)
    ensures var r := Move(db, id, queue, from, to, unique, when, mode);
            r.Ok? ==> r.value.Has(Queued, p.home(x), x) || r.value.Has(Scheduled, p.home(x), x)
  {
    var r := Move(db, id, queue, from, to, unique, when, mode);
    if r.Ok? {
      MoveMembers(db, id, queue, from, to, unique, when, mode);
      if to.Some? { AddedHasMember(db.Z(Key(to.value, queue)), when, id, mode); }
      forall k | x in db.Z(k) && k != Key(from, queue) ensures x in r.value.Z(k) {}
      forall k | x in db.Z(k) && x != id ensures x in r.value.Z(k) {}
    }
  }

  lemma OpKeepsRequest(p: Params, db: Db, op: Op, x: Id)
    requires WellFormed(op)
    requires db.Has(Queued, p.home(x), x) || db.Has(Scheduled, p.home(x), x)
    requires op.Taking? ==> x !in PopQueued(db, op.queue, op.count, op.now, op.later).1
    requires op.Moving? && op.from.Scheduled? ==> op.id != x
    ensures var after := ApplyOp(db, op); after.Has(Queued, p.home(x), x) || after.Has(Scheduled, p.home(x), x)
  {
    match op
    case Nothing =>
    case Delaying(queue, r, state, score) => DelayKeepsIds(db, queue, r, state, score, x);
    case Moving(id, queue, from, to, unique, when, mode) =>
      MoveKeepsRequest(p, db, id, queue, from, to, unique, when, mode, x);
    case Taking(queue, count, now, later) => PopKeepsRequest(p, db, queue, count, now, later, x);
    case Queueing(queue, count, now) => DueKeepsRequest(p, db, queue, count, now, x);
    case Beating(queue, ids, now) =>
      forall k | x in db.Z(k) ensures x in ApplyOp(db, op).Z(k) {}
    case Recording(id, e, maxStored) =>
      forall k ensures ApplyOp(db, op).Z(k) == db.Z(k) {}
    case Rescheduled(queue, id, when) =>
      forall k | x in db.Z(k) ensures x in ApplyOp(db, op).Z(k) {}
  }

  lemma DelayKeepsIds(db: Db, queue: Queue, r: Record, state: State, score: real, x: Id)
    ensures forall k :: x in db.Z(k) ==> x in Delay(db, queue, r, state, score).Z(k)
  {
    DelayMembers(db, queue, r, state, score);
    AddedHasMember(db.Z(Key(state, queue)), score, r.id, Nx);
  }

  /** A pop that does not return `x` leaves it queued, or parks it in SCHEDULED. */
  lemma PopKeepsRequest(p: Params, db: Db, queue: Queue, count: int, now: real, later: real, x: Id)
    requires db.Has(Queued, p.home(x), x) || db.Has(Scheduled, p.home(x), x)
    requires x !in PopQueued(db, queue, count, now, later).1
    ensures var after := PopQueued(db, queue, count, now, later).0;
            after.Has(Queued, p.home(x), x) || after.Has(Scheduled, p.home(x), x)
  {
    var third := Some(Third(Key(Scheduled, queue), later));
    PopOneId(db, Key(Queued, queue), Key(Active, queue), count, Unbounded, now, third, x);
    PopPushSets(db, Key(Queued, queue), Key(Active, queue), count, Unbounded, now, third);
  }

  lemma DueKeepsRequest(p: Params, db: Db, queue: Queue, count: int, now: real, x: Id)
    requires db.Has(Queued, p.home(x), x) || db.Has(Scheduled, p.home(x), x)
    ensures var after := QueueDue(db, queue, count, now).0;
            after.Has(Queued, p.home(x), x) || after.Has(Scheduled, p.home(x), x)
  {
    PopOneId(db, Key(Scheduled, queue), Key(Queued, queue), count, AtMost(now), now, None, x);
    PopPushSets(db, Key(Scheduled, queue), Key(Queued, queue), count, AtMost(now), now, None);
  }

  lemma EffectTakes(p: Params, s: Sys, step: Step)
    requires Enabled(p, s, step)
    ensures var op := EffectOf(p, s, step);
            && (op.Moving? && op.from.Scheduled? ==> step == CancelTask(op.id) && op.queue == p.home(op.id))
            && (op.Taking? ==> step.Pop? && op == Taking(step.queue, step.count, step.now, step.later))
            && (op.Queueing? ==> step.QueueScheduled? && op == Queueing(step.queue, step.count, step.now))
            && (op.Rescheduled? ==> step == UpdateScheduled(op.id, op.when))
            && (op.Moving? && op.to == Some(Scheduled) && !op.mode.Min? ==>
                  step.Finish? && step.decision == MoveTo(Scheduled, op.when) && Working(s, step.w, step.id)
                  && s.workers[step.w].tasks[step.id].record.id == op.id)
  {}

  /** Whatever happens, a requested task stays requested until it is handed over or cancelled. */
  lemma StepKeepsRequest(p: Params, s: Sys, step: Step, x: Id)
    requires Enabled(p, s, step) && Requested(p, s, x)
    requires !HandsOver(s, step, x) && step != CancelTask(x)
    ensures Requested(p, Apply(p, s, step), x)
  {
    StepAppliesEffect(p, s, step);
    EffectTakes(p, s, step);
    OpKeepsRequest(p, s.db, EffectOf(p, s, step), x);
  }

  /** Between the steps `i` and `j` the task was handed to a worker or cancelled. */
  ghost predicate ServedOrCancelled(run: Run, i: nat, j: nat, x: Id)
    requires j <= |run.steps| < |run.states|
  {
    exists m :: i <= m < j && (HandsOver(run.states[m], run.steps[m], x) || run.steps[m] == CancelTask(x))
  }

  /** No lost request: however a task came to be queued or scheduled - by a delay, for its next period,
  by a retry, a lock miss, a collision or an expiry - it stays so unless a later step handed it to
  a worker or cancelled it. */
  lemma {:induction false} RequestIsKept(p: Params, run: Run, i: nat, j: nat, x: Id)
    requires IsRun(p, run) && i <= j < |run.states| && Requested(p, run.states[i], x)
    ensures Requested(p, run.states[j], x) || ServedOrCancelled(run, i, j, x)
  {
    if i < j {
      RequestIsKept(p, run, i, j - 1, x);
      assert StepAt(p, run, j - 1);
      var s, step := run.states[j - 1], run.steps[j - 1];
      if Requested(p, s, x) && !HandsOver(s, step, x) && step != CancelTask(x) {
        StepKeepsRequest(p, s, step, x);
      }
    }
  }

  /** In particular from every delay on; the request of a unique task that is delayed while it runs
  outlives that run. */
  lemma NoLostRequest(p: Params, run: Run, i: nat, j: nat)
    requires IsRun(p, run) && i < j < |run.states| && run.steps[i].DelayTask?
    ensures var x := run.steps[i].record.id;
            Requested(p, run.states[j], x) || ServedOrCancelled(run, i + 1, j, x)
  {
    assert StepAt(p, run, i);
    DelayRequests(p, run.states[i], run.steps[i].record, run.steps[i].due, run.steps[i].now);
    RequestIsKept(p, run, i + 1, j, run.steps[i].record.id);
  }

  // ---- never early, never pushed back --------------------------------------------------------

  /** The two steps that may give a scheduled task a later time: its own failed run's retry and
  `update_scheduled_time`. */
  predicate Reschedules(s: Sys, step: Step, x: Id) {
    || (step.Finish? && step.decision.MoveTo? && step.decision.state.Scheduled?
        && Working(s, step.w, step.id) && s.workers[step.w].tasks[step.id].record.id == x)
    || (step.UpdateScheduled? && step.id == x)
  }

  lemma OpKeepsSchedule(db: Db, op: Op, q: Queue, x: Id)
    requires WellFormed(op) && db.Has(Scheduled, q, x)
    ensures var z, after := db.Z(Key(Scheduled, q)), ApplyOp(db, op).Z(Key(Scheduled, q));
            && (x !in after ==>
                 || (op.Moving? && op.from.Scheduled? && op.id == x && op.queue == q)
                 || (op.Queueing? && op.queue == q && z[x] <= op.now))
            && (x in after
                && !(op.Moving? && op.to == Some(Scheduled) && !op.mode.Min? && op.id == x)
                && !(op.Rescheduled? && op.id == x)
                ==> after[x] <= z[x])
  {
    match op
    case Delaying(queue, r, state, score) =>
      DelayMembers(db, queue, r, state, score);
      AddedHasMember(db.Z(Key(state, queue)), score, r.id, Nx);
    case Moving(id, queue, from, to, unique, when, mode) =>
      if db.Has(from, queue, id) {
        MoveMembers(db, id, queue, from, to, unique, when, mode);
        if to.Some? { AddedHasMember(db.Z(Key(to.value, queue)), when, id, mode); }
      }
    case Taking(queue, count, now, later) => PopKeepsSchedule(db, queue, count, now, later, q, x);
    case Queueing(queue, count, now) => QueueDueKeepsSchedule(db, queue, count, now, q, x);
    case _ =>
  }

  lemma PopKeepsSchedule(db: Db, queue: Queue, count: int, now: real, later: real, q: Queue, x: Id)
    requires db.Has(Scheduled, q, x)
    ensures var z, after := db.Z(Key(Scheduled, q)), PopQueued(db, queue, count, now, later).0.Z(Key(Scheduled, q));
            x in after && after[x] <= z[x]
  {
    PopPushSets(db, Key(Queued, queue), Key(Active, queue), count, Unbounded, now,
                Some(Third(Key(Scheduled, queue), later)));
  }

  lemma QueueDueKeepsSchedule(db: Db, queue: Queue, count: int, now: real, q: Queue, x: Id)
    requires db.Has(Scheduled, q, x)
    ensures var z, after := db.Z(Key(Scheduled, q)), QueueDue(db, queue, count, now).0.Z(Key(Scheduled, q));
            if x in after then after[x] == z[x] else queue == q && z[x] <= now
  {
    PopPushSets(db, Key(Scheduled, queue), Key(Queued, queue), count, AtMost(now), now, None);
    RangeIsRanks(db.Z(Key(Scheduled, queue)), AtMost(now), count);
  }

  /** A scheduled task leaves the set only when it is cancelled or when the scheduling pass finds
  it due, and apart from the two rescheduling steps none gives it a later time. */
  lemma StepKeepsSchedule(p: Params, s: Sys, step: Step, q: Queue, x: Id)
    requires Enabled(p, s, step) && s.db.Has(Scheduled, q, x)
    ensures var z, after := s.db.Z(Key(Scheduled, q)), Apply(p, s, step).db.Z(Key(Scheduled, q));
            && (x !in after ==>
                 || (step == CancelTask(x) && q == p.home(x))
                 || (step.QueueScheduled? && step.queue == q && z[x] <= step.now <= s.clock))
            && (x in after && !Reschedules(s, step, x) ==> after[x] <= z[x])
  {
    StepAppliesEffect(p, s, step);
    EffectTakes(p, s, step);
    OpKeepsSchedule(s.db, EffectOf(p, s, step), q, x);
  }

  /** Over a run: while `x` stays scheduled and nobody reschedules it, its time only comes closer. */
  lemma {:induction false} NeverPushedBack(p: Params, run: Run, i: nat, j: nat, q: Queue, x: Id)
    requires IsRun(p, run) && i <= j < |run.states|
    requires forall m :: i <= m <= j ==> run.states[m].db.Has(Scheduled, q, x)
    requires forall m :: i <= m < j ==> !Reschedules(run.states[m], run.steps[m], x)
    ensures ScheduledFor(run.states[j], q, x) <= ScheduledFor(run.states[i], q, x)
  {
    if i < j {
      NeverPushedBack(p, run, i, j - 1, q, x);
      assert StepAt(p, run, j - 1);
      StepKeepsSchedule(p, run.states[j - 1], run.steps[j - 1], q, x);
    }
  }
}
