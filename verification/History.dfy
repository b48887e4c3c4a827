/** The stored executions of a task and their counter. */
module History {
  import opened SortedSets
  import opened Wrappers
  import opened TaskDb
  import opened ScriptLaws
  import opened Protocol
  import opened Invariants
  import opened Effects
  import opened Runs
  import opened Decisions

  /** The counter counts every failure since the executions were last deleted, and the stored
  list is the newest of them, as many as the limit allows. */
  predicate HistoryOf(p: Params, db: Db, ledger: Ledger, x: Id) {
    && (x in db.counts <==> x in ledger.log)
    && (x in db.executions <==> x in ledger.log)
    && (x in ledger.log ==>
          db.counts[x] == |ledger.log[x]| && db.executions[x] == Newest(ledger.log[x], p.maxStored(x)))
  }

  ghost predicate HistoryOk(p: Params, db: Db, ledger: Ledger) {
    forall x :: HistoryOf(p, db, ledger, x)
  }

  lemma NewestAgain(history: seq<Execution>, e: Execution, limit: nat)
    ensures Newest(Newest(history, limit) + [e], limit) == Newest(history + [e], limit)
  {
    if limit > 0 && |history| > limit {
      assert (history[|history| - limit..] + [e])[1..] == (history + [e])[|history| + 1 - limit..];
    }
  }

  lemma SameHistory(p: Params, a: Db, b: Db, l: Ledger, m: Ledger)
    requires HistoryOk(p, a, l)
    requires b.counts == a.counts && b.executions == a.executions && m.log == l.log
    ensures HistoryOk(p, b, m)
  {
    forall x ensures HistoryOf(p, b, m, x) {
      assert HistoryOf(p, a, l, x);
    }
  }

  lemma MoveKeepsHistory(p: Params, db: Db, ledger: Ledger, id: Id, queue: Queue, from: State,
                         to: Option<State>, unique: bool, when: real, mode: Mode)
    requires MoveMode(mode) && to != Some(from) && HistoryOk(p, db, ledger)
    ensures var r := Move(db, id, queue, from, to, unique, when, mode);
            r.Ok? ==> HistoryOk(p, r.value, Pruned(ledger, r.value, id))
  {
    var r := Move(db, id, queue, from, to, unique, when, mode);
    if r.Ok? {
      MoveDeletes(db, id, queue, from, to, unique, when, mode);
      forall x ensures HistoryOf(p, r.value, Pruned(ledger, r.value, id), x) {
        assert HistoryOf(p, db, ledger, x);
      }
    }
  }

  lemma FailingKeepsHistory(p: Params, s: Sys, w: WorkerId, id: Id, e: Execution)
    requires HistoryOk(p, s.db, s.ledger) && Working(s, w, id)
    requires s.workers[w].tasks[id].record.maxStored == p.maxStored(id)
    ensures var after := Failing(s, w, id, e); HistoryOk(p, after.db, after.ledger)
  {
    var after := Failing(s, w, id, e);
    assert HistoryOf(p, s.db, s.ledger, id);
    NewestAgain(Logged(s.ledger, id), e, p.maxStored(id));
    forall x ensures HistoryOf(p, after.db, after.ledger, x) {
      assert HistoryOf(p, s.db, s.ledger, x);
    }
  }

  lemma PopKeepsHistory(p: Params, db: Db, ledger: Ledger, queue: Queue, count: int, now: real, later: real)
    requires HistoryOk(p, db, ledger)
    ensures HistoryOk(p, PopQueued(db, queue, count, now, later).0, ledger)
    ensures HistoryOk(p, QueueDue(db, queue, count, now).0, ledger)
  {
    PopPushSets(db, Key(Queued, queue), Key(Active, queue), count, Unbounded, now,
                Some(Third(Key(Scheduled, queue), later)));
    PopPushSets(db, Key(Scheduled, queue), Key(Queued, queue), count, AtMost(now), now, None);
    SameHistory(p, db, PopQueued(db, queue, count, now, later).0, ledger, ledger);
    SameHistory(p, db, QueueDue(db, queue, count, now).0, ledger, ledger);
  }

  lemma FinishingKeepsHistory(p: Params, s: Sys, w: WorkerId, id: Id, decision: Decision, now: real)
    requires HistoryOk(p, s.db, s.ledger) && Working(s, w, id)
    requires decision.MoveTo? ==> decision.state.Scheduled? || decision.state.Error?
    ensures var after := Finishing(s, w, id, decision, now); HistoryOk(p, after.db, after.ledger)
  {
    var r := s.workers[w].tasks[id].record;
    var to := if decision.MoveTo? then Some(decision.state) else None;
    var when := if decision.MoveTo? then decision.when else now;
    var first := Finishing(s, w, id, decision, now).ledger.firstFinish;
    var ledger := s.ledger.(firstFinish := first);
    SameHistory(p, s.db, s.db, s.ledger, ledger);
    MoveKeepsHistory(p, s.db, ledger, r.id, s.workers[w].queue, Active, to, r.unique, when, Plain);
  }

  // ---- records -----------------------------------------------------------------------------------

  /** A task that a worker has loaded is what its program fixed for the id. */
  predicate Carries(p: Params, x: Id, progress: Progress) {
    progress.Loaded? || progress.Running? ==> Fits(p, x, progress.record)
  }

  ghost predicate RecordsFit(p: Params, records: map<Id, Record>) {
    forall x :: x in records ==> Fits(p, x, records[x])
  }

  ghost predicate WorkersCarry(p: Params, workers: map<WorkerId, Work>) {
    forall w, x :: w in workers && x in workers[w].tasks ==> Carries(p, x, workers[w].tasks[x])
  }

  lemma DelayedFits(p: Params, s: Sys, r: Record, due: Option<real>, now: real)
    requires RecordsFit(p, s.db.records) && Fits(p, r.id, r)
    ensures RecordsFit(p, Delayed(p, s, r, due, now).db.records)
  {}

  lemma OpKeepsRecordsFit(p: Params, db: Db, op: Op)
    requires WellFormed(op) && RecordsFit(p, db.records)
    requires op.Delaying? ==> Fits(p, op.record.id, op.record)
    ensures RecordsFit(p, ApplyOp(db, op).records)
  {
    match op
    case Moving(id, queue, from, to, unique, when, mode) =>
      if db.Has(from, queue, id) { MoveDeletes(db, id, queue, from, to, unique, when, mode); }
    case Taking(queue, count, now, later) =>
      PopPushSets(db, Key(Queued, queue), Key(Active, queue), count, Unbounded, now,
                  Some(Third(Key(Scheduled, queue), later)));
    case Queueing(queue, count, now) =>
      PopPushSets(db, Key(Scheduled, queue), Key(Queued, queue), count, AtMost(now), now, None);
    case _ =>
  }

  lemma EffectDelaysFitting(p: Params, s: Sys, step: Step)
    requires Enabled(p, s, step) && WorkersCarry(p, s.workers)
    ensures var op := EffectOf(p, s, step); op.Delaying? ==> Fits(p, op.record.id, op.record)
  {}

  predicate IsProgress(step: Step) {
    step.Pop? || step.Load? || step.Begin? || step.StoreFailure?
  }

  lemma ProgressKeepsWorkersCarry(p: Params, s: Sys, step: Step)
    requires Enabled(p, s, step) && RecordsFit(p, s.db.records) && WorkersCarry(p, s.workers) && IsProgress(step)
    ensures WorkersCarry(p, Apply(p, s, step).workers)
  {
    match step
    case Begin(w, id, next, now) => assert Carries(p, id, s.workers[w].tasks[id]);
    case StoreFailure(w, id, e) => assert Carries(p, id, s.workers[w].tasks[id]);
    case _ =>
  }

  lemma MoveStepKeepsWorkersCarry(p: Params, s: Sys, step: Step)
    requires Enabled(p, s, step) && WorkersCarry(p, s.workers) && IsMoveStep(step)
    ensures WorkersCarry(p, Apply(p, s, step).workers)
  {}

  lemma OtherStepKeepsWorkersCarry(p: Params, s: Sys, step: Step)
    requires Enabled(p, s, step) && WorkersCarry(p, s.workers) && !IsProgress(step) && !IsMoveStep(step)
    ensures WorkersCarry(p, Apply(p, s, step).workers)
  {}

  lemma StepKeepsWorkersCarry(p: Params, s: Sys, step: Step)
    requires Enabled(p, s, step) && RecordsFit(p, s.db.records) && WorkersCarry(p, s.workers)
    ensures WorkersCarry(p, Apply(p, s, step).workers)
  {
    if IsProgress(step) {
      ProgressKeepsWorkersCarry(p, s, step);
    } else if IsMoveStep(step) {
      MoveStepKeepsWorkersCarry(p, s, step);
    } else {
      OtherStepKeepsWorkersCarry(p, s, step);
    }
  }

  lemma StepKeepsRecordsFit(p: Params, s: Sys, step: Step)
    requires Enabled(p, s, step) && RecordsFit(p, s.db.records) && WorkersCarry(p, s.workers)
    ensures RecordsFit(p, Apply(p, s, step).db.records) && WorkersCarry(p, Apply(p, s, step).workers)
  {
    StepAppliesEffect(p, s, step);
    EffectDelaysFitting(p, s, step);
    OpKeepsRecordsFit(p, s.db, EffectOf(p, s, step));
    StepKeepsWorkersCarry(p, s, step);
  }

  // ---- runs --------------------------------------------------------------------------------------

  lemma UserStepKeepsHistory(p: Params, s: Sys, step: Step)
    requires HistoryOk(p, s.db, s.ledger) && Enabled(p, s, step)
    requires step.RetryTask? || step.CancelTask? || step.DeleteTask?
    ensures HistoryOk(p, Apply(p, s, step).db, Apply(p, s, step).ledger)
  {
    match step
    case RetryTask(id, now) =>
      MoveKeepsHistory(p, s.db, s.ledger, id, p.home(id), Error, Some(Queued), p.unique(id), now, Plain);
    case CancelTask(id) =>
      MoveKeepsHistory(p, s.db, s.ledger, id, p.home(id), Scheduled, None, p.unique(id), s.clock, Plain);
    case DeleteTask(id) =>
      MoveKeepsHistory(p, s.db, s.ledger, id, p.home(id), Error, None, p.unique(id), s.clock, Plain);
    case _ =>
  }

  lemma PassStepKeepsHistory(p: Params, s: Sys, step: Step)
    requires HistoryOk(p, s.db, s.ledger) && Enabled(p, s, step) && (step.MoveExpired? || step.CleanUpExpired?)
    ensures HistoryOk(p, Apply(p, s, step).db, Apply(p, s, step).ledger)
  {
    var (q, x) := s.pass.value.todo[0];
    var now := s.pass.value.now;
    match step
    case MoveExpired(retriable) =>
      var r := s.pass.value.probe.record;
      MoveKeepsHistory(p, s.db, s.ledger, r.id, q, Active, Some(if retriable then Queued else Error), r.unique, now,
                       if retriable then Nx else Plain);
    case CleanUpExpired => MoveKeepsHistory(p, s.db, s.ledger, x, q, Active, None, false, now, Plain);
    case _ =>
  }

  lemma StepKeepsHistory(p: Params, s: Sys, step: Step)
    requires WorkersCarry(p, s.workers) && HistoryOk(p, s.db, s.ledger) && Enabled(p, s, step)
    ensures HistoryOk(p, Apply(p, s, step).db, Apply(p, s, step).ledger)
  {
    var after := Apply(p, s, step);
    match step
    case RetryTask(_, _) => UserStepKeepsHistory(p, s, step);
    case CancelTask(_) => UserStepKeepsHistory(p, s, step);
    case DeleteTask(_) => UserStepKeepsHistory(p, s, step);
    case Pop(w, queue, count, now, later) => PopKeepsHistory(p, s.db, s.ledger, queue, count, now, later);
    case CleanUp(w, id) =>
      var queue, broken := s.workers[w].queue, s.workers[w].tasks[id];
      MoveKeepsHistory(p, s.db, s.ledger, broken.dataId, queue, Active, None, broken.unique, s.clock, Plain);
    case LockMiss(w, id, when) =>
      var r := s.workers[w].tasks[id].record;
      MoveKeepsHistory(p, s.db, s.ledger, r.id, s.workers[w].queue, Active, Some(Scheduled), r.unique, when, Min);
    case StoreFailure(w, id, e) => FailingKeepsHistory(p, s, w, id, e);
    case Finish(w, id, decision, now) => FinishingKeepsHistory(p, s, w, id, decision, now);
    case QueueScheduled(queue, count, now) => PopKeepsHistory(p, s.db, s.ledger, queue, count, now, now);
    case MoveExpired(_) => PassStepKeepsHistory(p, s, step);
    case CleanUpExpired => PassStepKeepsHistory(p, s, step);
    case _ => SameHistory(p, s.db, after.db, s.ledger, after.ledger);
  }

  lemma {:induction false} HistoryIsKept(p: Params, run: Run, n: nat)
    requires IsRun(p, run) && n < |run.states|
    ensures RecordsFit(p, run.states[n].db.records) && WorkersCarry(p, run.states[n].workers)
    ensures HistoryOk(p, run.states[n].db, run.states[n].ledger)
  {
    if n == 0 {
      forall x ensures HistoryOf(p, Empty, Start.ledger, x) {}
    } else {
      HistoryIsKept(p, run, n - 1);
      assert StepAt(p, run, n - 1);
      StepKeepsRecordsFit(p, run.states[n - 1], run.steps[n - 1]);
      StepKeepsHistory(p, run.states[n - 1], run.steps[n - 1]);
    }
  }

  /** In every state of every run the counter is the number of failures stored since the last
  deletion, and the stored list is exactly the last min(count, limit) of them. */
  lemma StoredHistory(p: Params, run: Run, n: nat, x: Id)
    requires IsRun(p, run) && n < |run.states|
    ensures var db, log, m := run.states[n].db, Logged(run.states[n].ledger, x), p.maxStored(x);
            && db.Count(x) == |log|
            && |db.History(x)| == (if 0 < m < |log| then m else |log|)
            && db.History(x) == log[|log| - |db.History(x)|..]
            && |db.History(x)| <= db.Count(x)
  {
    HistoryIsKept(p, run, n);
    assert HistoryOf(p, run.states[n].db, run.states[n].ledger, x);
  }

  /** The last execution that is read after a run is the newest failure. */
  lemma LastExecutionIsNewest(p: Params, run: Run, n: nat, x: Id)
    requires IsRun(p, run) && n < |run.states|
    ensures var log := Logged(run.states[n].ledger, x);
            LastExecution(run.states[n].db, x) == if log == [] then None else Some(log[|log| - 1])
  {
    StoredHistory(p, run, n, x);
  }

  // ---- failed tasks keep their history ---------------------------------------------------------

  /** The operation takes `x` out of its queue for good, and the script finds no reason to keep the
  executions: the task is not unique, or it is not in the error set but for the one it leaves. */
  predicate DropsHistory(db: Db, op: Op, x: Id) {
    && op.Moving? && op.id == x && op.to.None? && db.Has(op.from, op.queue, x)
    && (!op.unique || op.from.Error? || !db.Has(Error, op.queue, x))
  }

  ghost predicate KeepsHistory(db: Db, after: Db, x: Id) {
    after.Count(x) >= db.Count(x) && (x in db.executions ==> x in after.executions)
  }

  /** Exactly such an operation deletes a history. */
  lemma OpKeepsHistoryExactly(p: Params, db: Db, ledger: Ledger, op: Op, x: Id)
    requires WellFormed(op) && HistoryOk(p, db, ledger)
    ensures KeepsHistory(db, ApplyOp(db, op), x) <==> !(DropsHistory(db, op, x) && x in db.executions)
  {
    assert HistoryOf(p, db, ledger, x);
    match op
    case Moving(id, queue, from, to, unique, when, mode) =>
      if db.Has(from, queue, id) { MoveDeletes(db, id, queue, from, to, unique, when, mode); }
    case Taking(queue, count, now, later) =>
      PopPushSets(db, Key(Queued, queue), Key(Active, queue), count, Unbounded, now,
                  Some(Third(Key(Scheduled, queue), later)));
    case Queueing(queue, count, now) =>
      PopPushSets(db, Key(Scheduled, queue), Key(Queued, queue), count, AtMost(now), now, None);
    case _ =>
  }

  /** In any run, timely or not, that is when a step deletes the history of a task. */
  lemma StepKeepsHistoryExactly(p: Params, run: Run, n: nat, x: Id)
    requires IsRun(p, run) && n < |run.steps|
    ensures StepAt(p, run, n)
    ensures KeepsHistory(run.states[n].db, run.states[n + 1].db, x)
       <==> !(DropsHistory(run.states[n].db, EffectOf(p, run.states[n], run.steps[n]), x)
              && x in run.states[n].db.executions)
  {
    var s := run.states[n];
    assert StepAt(p, run, n);
    HistoryIsKept(p, run, n);
    StepAppliesEffect(p, s, run.steps[n]);
    OpKeepsHistoryExactly(p, s.db, s.ledger, EffectOf(p, s, run.steps[n]), x);
  }

  /** Under the invariant every step acts on a task with its true record. */
  lemma EffectIsTrue(p: Params, s: Sys, step: Step)
    requires Inv(p, s) && Enabled(p, s, step)
    ensures var op := EffectOf(p, s, step);
            op.Moving? ==> op.unique == p.unique(op.id) && op.queue == p.home(op.id)
  {
    CleanUpsAreDisabled(p, s, step);
    forall w, x | w in s.workers && x in s.workers[w].tasks
      ensures TaskOk(p, s.db, s.workers[w], x) {}
    if Pending(s) {
      var todo := s.pass.value.todo;
      assert Abandoned(p, s.db, s.workers, todo[0].0, todo[0].1);
    }
  }

  /** In timely runs a task that stays in the error set keeps its history, whatever leaves other
  states. */
  lemma FailedTasksKeepHistory(p: Params, run: Run, n: nat, x: Id)
    requires IsRun(p, run) && n < |run.steps| && TimelyUntil(p, run, n)
    requires run.states[n].db.Has(Error, p.home(x), x) && run.states[n + 1].db.Has(Error, p.home(x), x)
    ensures KeepsHistory(run.states[n].db, run.states[n + 1].db, x)
  {
    var s, step := run.states[n], run.steps[n];
    RunsAreSound(p, run, n);
    StepKeepsHistoryExactly(p, run, n, x);
    var op := EffectOf(p, s, step);
    StepAppliesEffect(p, s, step);
    EffectIsTrue(p, s, step);
    assert IdOk(p, s.db, s.ledger, x);
    if DropsHistory(s.db, op, x) { OnlyPlaceIsLeft(p, s.db, op, x); }
  }

  /** An operation that drops a history on true terms takes the task out of the error set. */
  lemma OnlyPlaceIsLeft(p: Params, db: Db, op: Op, x: Id)
    requires WellFormed(op) && DropsHistory(db, op, x)
    requires op.unique == p.unique(x) && op.queue == p.home(x)
    requires !p.unique(x) ==> forall j, k :: x in db.Z(j) && x in db.Z(k) ==> j == k
    ensures !ApplyOp(db, op).Has(Error, p.home(x), x)
  {
    MoveMembers(db, x, op.queue, op.from, op.to, op.unique, op.when, op.mode);
    assert x in db.Z(Key(op.from, op.queue));
    assert db.Has(Error, p.home(x), x) ==> x in db.Z(Key(Error, p.home(x)));
  }
}
