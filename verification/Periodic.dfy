/** A periodic task never drops out of the queue. */
module PeriodicTasks {
  import opened SortedSets
  import opened Wrappers
  import opened TaskDb
  import opened ScriptLaws
  import opened Protocol
  import opened Invariants
  import opened Steps
  import opened Effects
  import opened Runs
  import opened Requests

  /** A worker has popped `x` and not yet delayed it for its next period. */
  predicate BeforeNextPeriod(s: Sys, w: WorkerId, x: Id) {
    s.Holds(w, x) && !s.workers[w].tasks[x].Running?
  }

  ghost predicate Lasting(p: Params, s: Sys, x: Id) {
    Requested(p, s, x) || exists w :: w in s.workers && BeforeNextPeriod(s, w, x)
  }

  /** The premise on each step: no cancelling, no crash between pop and rescheduling, and a
  schedule that always gives a next period to the (only) task of the batch. */
  ghost predicate KeepsPeriod(s: Sys, step: Step, x: Id) {
    && step != CancelTask(x)
    && (step.Die? ==> !BeforeNextPeriod(s, step.w, x))
    && (step.Begin? && step.id == x ==> step.next.Some?)
  }

  lemma HolderKeepsLasting(p: Params, s: Sys, step: Step, w: WorkerId, x: Id)
    requires Inv(p, s) && Enabled(p, s, step) && KeepsPeriod(s, step, x)
    requires w in s.workers && BeforeNextPeriod(s, w, x)
    ensures Lasting(p, Apply(p, s, step), x)
  {
    var t := Apply(p, s, step);
    assert TaskOk(p, s.db, s.workers[w], x);
    CleanUpsAreDisabled(p, s, step);
    match step
    case LockMiss(v, id, when) =>
      LockMissKeepsHolder(p, s, v, id, when, w, x);
    case Begin(v, id, next, now) =>
      if id == x && v == w {
        BeginRequests(p, s, w, x, next, now);
      } else {
        assert BeforeNextPeriod(t, w, x);
      }
    case Finish(v, id, decision, now) =>
      FinishKeepsHolder(p, s, v, id, decision, now, w, x);
    case Pop(v, queue, count, now, later) => assert BeforeNextPeriod(t, w, x);
    case Load(v) => assert BeforeNextPeriod(t, w, x);
    case StoreFailure(v, id, e) => assert BeforeNextPeriod(t, w, x);
    case Release(v) => assert BeforeNextPeriod(t, w, x);
    case Die(v) => assert BeforeNextPeriod(t, w, x);
    case CleanUp(_, _) =>
    case CleanUpExpired =>
    case CheckRecord =>
    case _ => assert BeforeNextPeriod(t, w, x);
  }

  lemma BeginRequests(p: Params, s: Sys, w: WorkerId, x: Id, next: Option<real>, now: real)
    requires Waiting(s, w, x) && next.Some?
    ensures Requested(p, Beginning(p, s, w, x, next, now), x)
  {
    DelayRequests(p, s, s.workers[w].tasks[x].record.(id := x), next, now);
  }

  lemma LockMissKeepsHolder(p: Params, s: Sys, v: WorkerId, id: Id, when: real, w: WorkerId, x: Id)
    requires Inv(p, s) && Waiting(s, v, id) && w in s.workers && BeforeNextPeriod(s, w, x)
    ensures var r := s.workers[v].tasks[id].record;
            Lasting(p, WorkerMove(s, v, id, r.id, Some(Scheduled), r.unique, when, Min), x)
  {
    var r := s.workers[v].tasks[id].record;
    assert TaskOk(p, s.db, s.workers[v], id) && TaskOk(p, s.db, s.workers[w], x);
    var t := WorkerMove(s, v, id, r.id, Some(Scheduled), r.unique, when, Min);
    WorkerMoveKeepsInv(p, s, v, id, r, Some(Scheduled), when, Min);
    if id == x {
      MoveMembers(s.db, x, p.home(x), Active, Some(Scheduled), r.unique, when, Min);
      AddedHasMember(s.db.Z(Key(Scheduled, p.home(x))), when, x, Min);
      assert t.db.Has(Scheduled, p.home(x), x);
    } else {
      assert BeforeNextPeriod(t, w, x);
    }
  }

  lemma FinishKeepsHolder(p: Params, s: Sys, v: WorkerId, id: Id, decision: Decision, now: real, w: WorkerId, x: Id)
    requires Inv(p, s) && Working(s, v, id) && w in s.workers && BeforeNextPeriod(s, w, x)
    requires decision.MoveTo? ==> decision.state.Scheduled? || decision.state.Error?
    ensures Lasting(p, Finishing(s, v, id, decision, now), x)
  {
    FinishingKeepsInv(p, s, v, id, decision, now);
    var t := Finishing(s, v, id, decision, now);
    assert id != x;
    assert BeforeNextPeriod(t, w, x);
  }

  lemma StepKeepsLasting(p: Params, s: Sys, step: Step, x: Id)
    requires Inv(p, s) && Enabled(p, s, step) && KeepsPeriod(s, step, x) && Lasting(p, s, x)
    ensures Lasting(p, Apply(p, s, step), x)
  {
    if Requested(p, s, x) {
      if HandsOver(s, step, x) {
        PoppedIsBefore(p, s, step, x);
      } else {
        StepKeepsRequest(p, s, step, x);
      }
    } else {
      var w :| w in s.workers && BeforeNextPeriod(s, w, x);
      HolderKeepsLasting(p, s, step, w, x);
    }
  }

  lemma PoppedIsBefore(p: Params, s: Sys, step: Step, x: Id)
    requires Enabled(p, s, step) && HandsOver(s, step, x)
    ensures Lasting(p, Apply(p, s, step), x)
  {
    assert BeforeNextPeriod(Apply(p, s, step), step.w, x);
  }

  /** Only a pop makes a task active. */
  lemma OpActivates(db: Db, op: Op, q: Queue, x: Id)
    requires WellFormed(op) && !db.Has(Active, q, x) && ApplyOp(db, op).Has(Active, q, x)
    requires op.Beating? ==> op.ids <= db.Z(Key(Active, op.queue)).Keys
    requires op.Delaying? ==> !op.state.Active?
    ensures op.Taking? && op.queue == q && x in PopQueued(db, q, op.count, op.now, op.later).1
  {
    match op
    case Moving(id, queue, from, to, unique, when, mode) =>
      if db.Has(from, queue, id) { MoveMembers(db, id, queue, from, to, unique, when, mode); }
    case Taking(queue, count, now, later) => PopActivates(db, queue, count, now, later, q, x);
    case Queueing(queue, count, now) =>
      PopPushSets(db, Key(Scheduled, queue), Key(Queued, queue), count, AtMost(now), now, None);
    case _ =>
  }

  lemma PopActivates(db: Db, queue: Queue, count: int, now: real, later: real, q: Queue, x: Id)
    requires !db.Has(Active, q, x) && PopQueued(db, queue, count, now, later).0.Has(Active, q, x)
    ensures queue == q && x in PopQueued(db, queue, count, now, later).1
  {
    var third := Some(Third(Key(Scheduled, queue), later));
    PopOneId(db, Key(Queued, queue), Key(Active, queue), count, Unbounded, now, third, x);
    PopPushSets(db, Key(Queued, queue), Key(Active, queue), count, Unbounded, now, third);
  }

  lemma EffectHandsOver(p: Params, s: Sys, step: Step)
    requires Inv(p, s) && Enabled(p, s, step)
    ensures var op := EffectOf(p, s, step);
            && (op.Beating? ==> op.ids <= s.db.Z(Key(Active, op.queue)).Keys)
            && (op.Delaying? ==> !op.state.Active?)
            && (op.Taking? ==> step.Pop? && op == Taking(step.queue, step.count, step.now, step.later))
  {
    if step.Beat? {
      forall x | x in step.ids ensures x in s.db.Z(Key(Active, s.workers[step.w].queue)) {
        assert TaskOk(p, s.db, s.workers[step.w], x);
      }
    }
  }

  /** An active task is always lasting: its holder has delayed it already, or still will. */
  ghost predicate ActiveLasts(p: Params, s: Sys, x: Id) {
    s.db.Has(Active, p.home(x), x) ==> Lasting(p, s, x)
  }

  lemma StepKeepsActiveLasts(p: Params, s: Sys, step: Step, x: Id)
    requires Inv(p, s) && Enabled(p, s, step) && KeepsPeriod(s, step, x) && ActiveLasts(p, s, x)
    ensures ActiveLasts(p, Apply(p, s, step), x)
  {
    if Lasting(p, s, x) {
      StepKeepsLasting(p, s, step, x);
    } else if Apply(p, s, step).db.Has(Active, p.home(x), x) {
      StepAppliesEffect(p, s, step);
      EffectHandsOver(p, s, step);
      OpActivates(s.db, EffectOf(p, s, step), p.home(x), x);
      PoppedIsBefore(p, s, step, x);
    }
  }

  /** The premise on the steps from `k` to `n`. */
  ghost predicate KeepsPeriodFrom(run: Run, k: nat, n: nat, x: Id)
    requires k <= n < |run.states| && |run.states| == |run.steps| + 1
  {
    forall i :: k <= i < n ==> KeepsPeriod(run.states[i], run.steps[i], x)
  }

  lemma {:induction false} ActiveStaysLasting(p: Params, run: Run, k: nat, n: nat, x: Id)
    requires IsRun(p, run) && k <= n < |run.states| && TimelyUntil(p, run, n) && KeepsPeriodFrom(run, k, n, x)
    requires ActiveLasts(p, run.states[k], x)
    ensures ActiveLasts(p, run.states[n], x)
  {
    if k < n {
      ActiveStaysLasting(p, run, k, n - 1, x);
      RunsAreSound(p, run, n - 1);
      RunStepKeepsActiveLasts(p, run, n - 1, x);
    }
  }

  lemma RunStepKeepsActiveLasts(p: Params, run: Run, n: nat, x: Id)
    requires IsRun(p, run) && n < |run.steps| && Inv(p, run.states[n])
    requires KeepsPeriod(run.states[n], run.steps[n], x) && ActiveLasts(p, run.states[n], x)
    ensures ActiveLasts(p, run.states[n + 1], x)
  {
    assert StepAt(p, run, n);
    StepKeepsActiveLasts(p, run.states[n], run.steps[n], x);
  }

  /** QUEUED, ACTIVE or SCHEDULED: what worker start-up looks for before it queues the task. */
  predicate Present(p: Params, s: Sys, x: Id) {
    Requested(p, s, x) || s.db.Has(Active, p.home(x), x)
  }

  lemma {:induction false} LastingIsKept(p: Params, run: Run, i: nat, j: nat, x: Id)
    requires IsRun(p, run) && i <= j < |run.states| && TimelyUntil(p, run, j) && KeepsPeriodFrom(run, i, j, x)
    requires Lasting(p, run.states[i], x)
    ensures Lasting(p, run.states[j], x)
  {
    if i < j {
      LastingIsKept(p, run, i, j - 1, x);
      RunsAreSound(p, run, j - 1);
      RunStepKeepsLasting(p, run, j - 1, x);
    }
  }

  lemma RunStepKeepsLasting(p: Params, run: Run, n: nat, x: Id)
    requires IsRun(p, run) && n < |run.steps| && Inv(p, run.states[n])
    requires KeepsPeriod(run.states[n], run.steps[n], x) && Lasting(p, run.states[n], x)
    ensures Lasting(p, run.states[n + 1], x)
  {
    assert StepAt(p, run, n);
    StepKeepsLasting(p, run.states[n], run.steps[n], x);
  }

  lemma LastingIsPresent(p: Params, run: Run, n: nat, x: Id)
    requires IsRun(p, run) && n < |run.states| && TimelyUntil(p, run, n) && Lasting(p, run.states[n], x)
    ensures Present(p, run.states[n], x)
  {
    var s := run.states[n];
    RunsAreSound(p, run, n);
    if !Requested(p, s, x) {
      var w :| w in s.workers && BeforeNextPeriod(s, w, x);
      assert TaskOk(p, s.db, s.workers[w], x);
    }
  }

  /** Periodic liveness: a task that start-up finds queued or scheduled, or delays because it finds it
  nowhere, is present in every later state, whatever the outcomes of its runs. Nothing is asked of
  the steps before. */
  lemma PeriodicTaskStays(p: Params, run: Run, i: nat, j: nat, x: Id)
    requires IsRun(p, run) && i <= j < |run.states| && TimelyUntil(p, run, j) && KeepsPeriodFrom(run, i, j, x)
    requires Requested(p, run.states[i], x)
             || (i > 0 && run.steps[i - 1].DelayTask? && run.steps[i - 1].record.id == x)
    ensures Present(p, run.states[j], x)
  {
    if !Requested(p, run.states[i], x) {
      assert StepAt(p, run, i - 1);
      DelayRequests(p, run.states[i - 1], run.steps[i - 1].record, run.steps[i - 1].due, run.steps[i - 1].now);
    }
    LastingIsKept(p, run, i, j, x);
    LastingIsPresent(p, run, j, x);
  }

  /** The same for a task that start-up finds active: then the premise reaches back to a state `k`
  before it became active. */
  lemma ActivePeriodicTaskStays(p: Params, run: Run, k: nat, i: nat, j: nat, x: Id)
    requires IsRun(p, run) && k <= i <= j < |run.states| && TimelyUntil(p, run, j) && KeepsPeriodFrom(run, k, j, x)
    requires !run.states[k].db.Has(Active, p.home(x), x) && run.states[i].db.Has(Active, p.home(x), x)
    ensures Present(p, run.states[j], x)
  {
    ActiveStaysLasting(p, run, k, i, x);
    LastingIsKept(p, run, i, j, x);
    LastingIsPresent(p, run, j, x);
  }
}
