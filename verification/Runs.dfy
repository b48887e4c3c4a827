/** Whole runs: exclusive processing, no dangling ids, and index sets that agree. */
module Runs {
  import opened SortedSets
  import opened Wrappers
  import opened TaskDb
  import opened ScriptLaws
  import opened Protocol
  import opened Invariants
  import opened Steps
  import opened ExpiryLaws
  import opened Effects

  lemma StartIsSound(p: Params)
    ensures Inv(p, Start)
  {
    forall x ensures IdOk(p, Empty, Start.ledger, x) {}
  }

  /** No step that cleans up after a missing or foreign record can be taken. */
  lemma CleanUpsAreDisabled(p: Params, s: Sys, step: Step)
    requires Inv(p, s) && Enabled(p, s, step)
    ensures !step.CleanUp? && !step.CheckRecord? && !step.CleanUpExpired?
  {
    forall w, x | w in s.workers && x in s.workers[w].tasks ensures !s.workers[w].tasks[x].Broken? {
      assert TaskOk(p, s.db, s.workers[w], x);
    }
  }

  lemma StepKeepsInv(p: Params, s: Sys, step: Step)
    requires Inv(p, s) && Timely(p, s) && Enabled(p, s, step)
    ensures Inv(p, Apply(p, s, step))
  {
    CleanUpsAreDisabled(p, s, step);
    match step
    case Tick(clock) =>
    case DelayTask(r, due, now) => DelayKeepsInv(p, s, r, due, now);
    case RetryTask(id, now) => UserMoveKeepsInv(p, s, id, Error, Some(Queued), now);
    case CancelTask(id) => UserMoveKeepsInv(p, s, id, Scheduled, None, s.clock);
    case DeleteTask(id) => UserMoveKeepsInv(p, s, id, Error, None, s.clock);
    case UpdateScheduled(id, when) => UpdatingKeepsInv(p, s, id, when);
    case Pop(w, queue, count, now, later) => PoppingKeepsInv(p, s, w, queue, count, now, later);
    case Load(w) => LoadingKeepsInv(p, s, w);
    case LockMiss(w, id, when) =>
      assert TaskOk(p, s.db, s.workers[w], id);
      WorkerMoveKeepsInv(p, s, w, id, s.workers[w].tasks[id].record, Some(Scheduled), when, Min);
    case Begin(w, id, next, now) => BeginningKeepsInv(p, s, w, id, next, now);
    case Beat(w, ids, now) => BeatKeepsInv(p, s, w, ids, now);
    case StoreFailure(w, id, e) => FailingKeepsInv(p, s, w, id, e);
    case Finish(w, id, decision, now) => FinishingKeepsInv(p, s, w, id, decision, now);
    case Release(w) => LeavingKeepsInv(p, s, w);
    case Die(w) => LeavingKeepsInv(p, s, w);
    case QueueScheduled(queue, count, now) => QueueDueKeepsInv(p, s, queue, count, now);
    case ListExpired(queues, batch, now) => ListingKeepsInv(p, s, queues, batch, now);
    case ProbeExpired => ProbingKeepsInv(p, s);
    case MoveExpired(retriable) => ExpiringKeepsInv(p, s, retriable);
    case EndPass =>
    case _ =>
  }

  /** Every state of the run up to `n` meets the timing premise. */
  ghost predicate TimelyUntil(p: Params, run: Run, n: nat)
    requires n < |run.states|
  {
    forall i :: 0 <= i <= n ==> Timely(p, run.states[i])
  }

  lemma {:induction false} RunsAreSound(p: Params, run: Run, n: nat)
    requires IsRun(p, run) && n < |run.states| && TimelyUntil(p, run, n)
    ensures Inv(p, run.states[n])
  {
    if n == 0 {
      StartIsSound(p);
    } else {
      RunsAreSound(p, run, n - 1);
      assert StepAt(p, run, n - 1);
      StepKeepsInv(p, run.states[n - 1], run.steps[n - 1]);
    }
  }

  /** Exclusive processing: no two live workers ever hold the same id, and a held id is active. */
  lemma ExclusiveProcessing(p: Params, run: Run, n: nat, v: WorkerId, w: WorkerId, x: Id)
    requires IsRun(p, run) && n < |run.states| && TimelyUntil(p, run, n)
    requires run.states[n].Holds(v, x) && run.states[n].Holds(w, x)
    ensures v == w && run.states[n].db.Has(Active, p.home(x), x)
  {
    RunsAreSound(p, run, n);
    assert TaskOk(p, run.states[n].db, run.states[n].workers[v], x);
  }

  /** The expiry pass moves only ids that no live worker holds, however long ago it listed them. */
  lemma OnlyAbandonedTasksExpire(p: Params, run: Run, n: nat)
    requires IsRun(p, run) && n < |run.steps| && TimelyUntil(p, run, n)
    requires run.steps[n].MoveExpired? || run.steps[n].CleanUpExpired?
    ensures run.steps[n].MoveExpired?
    ensures var s := run.states[n];
            && Pending(s)
            && var x := s.pass.value.todo[0].1;
            && s.db.Has(Active, p.home(x), x) && !s.Held(x)
            && !run.states[n + 1].db.Has(Active, p.home(x), x)
            && run.states[n + 1].db.Has(if run.steps[n].retriable then Queued else Error, p.home(x), x)
  {
    var s := run.states[n];
    RunsAreSound(p, run, n);
    assert StepAt(p, run, n);
    CleanUpsAreDisabled(p, s, run.steps[n]);
    var (q, x) := s.pass.value.todo[0];
    assert Abandoned(p, s.db, s.workers, q, x);
    var to := if run.steps[n].retriable then Queued else Error;
    MoveMembers(s.db, x, q, Active, Some(to), p.unique(x), s.pass.value.now,
                if run.steps[n].retriable then Nx else Plain);
  }

  /** No dangling ids, and the last writer wins: an id in any of the four sets has a record with
  that id, the one its latest `delay` wrote except perhaps for the scheduled time. */
  lemma NoDanglingIds(p: Params, run: Run, n: nat, k: Key, x: Id)
    requires IsRun(p, run) && n < |run.states| && TimelyUntil(p, run, n)
    requires x in run.states[n].db.Z(k)
    ensures k.queue == p.home(x)
    ensures var s := run.states[n];
            && x in s.db.records && s.db.records[x].id == x
            && x in s.ledger.latest
            && s.db.records[x] == s.ledger.latest[x].(scheduledAt := s.db.records[x].scheduledAt)
  {
    RunsAreSound(p, run, n);
    assert IdOk(p, run.states[n].db, run.states[n].ledger, x);
  }

  /** So the "not found" and "ID mismatch" branches are unreachable: loading a batch finds every
  record, and loading a listed task succeeds. */
  lemma RecordsAreFound(p: Params, run: Run, n: nat)
    requires IsRun(p, run) && n < |run.steps| && TimelyUntil(p, run, n)
    ensures var step := run.steps[n];
            && !step.CleanUp? && !step.CheckRecord? && !step.CleanUpExpired?
            && (step.Load? ==>
                  forall x :: run.states[n].Holds(step.w, x) ==> Waiting(run.states[n + 1], step.w, x))
            && (step.ProbeExpired? ==>
                  Pending(run.states[n + 1]) && run.states[n + 1].pass.value.probe.Found?)
            && (step.UpdateScheduled? ==>
                  !Reschedule(run.states[n].db, p.home(step.id), step.id, step.when).NoRecord?)
  {
    var s, step := run.states[n], run.steps[n];
    RunsAreSound(p, run, n);
    assert StepAt(p, run, n);
    CleanUpsAreDisabled(p, s, step);
    if step.Load? {
      LoadingKeepsInv(p, s, step.w);
      forall x | s.Holds(step.w, x) ensures Waiting(run.states[n + 1], step.w, x) {
        assert TaskOk(p, Loading(s, step.w).db, Loading(s, step.w).workers[step.w], x);
      }
    }
    if step.ProbeExpired? { ProbingKeepsInv(p, s); }
    if step.UpdateScheduled? { UpdatingKeepsInv(p, s, step.id, step.when); }
  }

  /** So the expiry pass can deal with every task that expires, whatever the cutoff. */
  lemma ExpiredTasksAreHandled(p: Params, run: Run, n: nat, cutoff: real)
    requires IsRun(p, run) && n < |run.states| && TimelyUntil(p, run, n)
    ensures ExpiredHandled(run.states[n].db, cutoff)
  {
    var s := run.states[n];
    RunsAreSound(p, run, n);
    ExpiredAllMembers(s.db, cutoff);
    forall e | e in ExpiredAll(s.db, cutoff) ensures Handled(s.db, e.0, e.1) {
      assert e == (e.0, e.1);
      assert IdOk(p, s.db, s.ledger, e.1);
    }
  }

  /** A worker's own moves never meet TaskNotFound. */
  lemma HeldTasksAreFound(p: Params, run: Run, n: nat)
    requires IsRun(p, run) && n < |run.steps| && TimelyUntil(p, run, n)
    requires run.steps[n].LockMiss? || run.steps[n].Finish?
    ensures run.steps[n].w in run.states[n + 1].workers
    ensures !run.states[n + 1].Holds(run.steps[n].w, run.steps[n].id)
  {
    var s, step := run.states[n], run.steps[n];
    RunsAreSound(p, run, n);
    assert StepAt(p, run, n);
    assert TaskOk(p, s.db, s.workers[step.w], step.id);
    match step
    case LockMiss(w, id, when) =>
      WorkerMoveKeepsInv(p, s, w, id, s.workers[w].tasks[id].record, Some(Scheduled), when, Min);
    case Finish(w, id, decision, now) =>
      FinishingKeepsInv(p, s, w, id, decision, now);
      FinishedIsDropped(p, s, w, id, decision, now);
  }

  lemma FinishedIsDropped(p: Params, s: Sys, w: WorkerId, id: Id, decision: Decision, now: real)
    requires Working(s, w, id)
    requires decision.MoveTo? ==> decision.state.Scheduled? || decision.state.Error?
    ensures !Finishing(s, w, id, decision, now).Holds(w, id)
  {}

  // ---- index sets ----------------------------------------------------------------------------

  /** A heartbeat finds its queue with an active task, unless it names no id. */
  ghost predicate BeatsBusyQueue(s: Sys, step: Step) {
    step.Beat? && step.w in s.workers ==>
      step.ids == {} || s.db.Z(Key(Active, s.workers[step.w].queue)) != map[]
  }

  ghost predicate OpOnBusyQueue(db: Db, op: Op) {
    op.Beating? ==> op.ids == {} || db.Z(Key(Active, op.queue)) != map[]
  }

  lemma OpIndexExact(db: Db, op: Op)
    requires WellFormed(op) && IndexAgrees(db)
    ensures IndexAgrees(ApplyOp(db, op)) <==> OpOnBusyQueue(db, op)
  {
    match op
    case Nothing =>
    case Delaying(queue, record, state, score) => DelayKeepsIndex(db, queue, record, state, score);
    case Moving(id, queue, from, to, unique, when, mode) =>
      if db.Has(from, queue, id) { MoveKeepsIndex(db, id, queue, from, to, unique, when, mode); }
    case Taking(queue, count, now, later) =>
      PopPushKeepsIndex(db, Key(Queued, queue), Key(Active, queue), count, Unbounded, now,
                        Some(Third(Key(Scheduled, queue), later)));
    case Queueing(queue, count, now) =>
      PopPushKeepsIndex(db, Key(Scheduled, queue), Key(Queued, queue), count, AtMost(now), now, None);
    case Beating(queue, ids, now) => HeartbeatIndexExact(db, queue, ids, now);
    case Recording(id, e, maxStored) =>
      forall k ensures ApplyOp(db, op).Z(k) == db.Z(k) {}
    case Rescheduled(queue, id, when) => RescheduleKeepsIndex(db, queue, id, when);
  }

  lemma RescheduleKeepsIndex(db: Db, queue: Queue, id: Id, when: real)
    requires IndexAgrees(db)
    ensures IndexAgrees(ApplyOp(db, Op.Rescheduled(queue, id, when)))
  {
    var r := Reschedule(db, queue, id, when);
    if !r.NotScheduled? {
      forall k ensures k in r.db.index <==> r.db.Z(k) != map[] {
        if k == Key(Scheduled, queue) { assert id in r.db.Z(k); }
      }
    }
  }

  lemma EffectBeats(p: Params, s: Sys, step: Step)
    requires Enabled(p, s, step)
    ensures OpOnBusyQueue(s.db, EffectOf(p, s, step)) <==> BeatsBusyQueue(s, step)
  {}

  /** The one step that can break the agreement, and exactly when it does. */
  lemma StepIndexExact(p: Params, s: Sys, step: Step)
    requires Enabled(p, s, step) && IndexAgrees(s.db)
    ensures IndexAgrees(Apply(p, s, step).db) <==> BeatsBusyQueue(s, step)
  {
    StepAppliesEffect(p, s, step);
    EffectBeats(p, s, step);
    OpIndexExact(s.db, EffectOf(p, s, step));
  }

  lemma RunStepIndexExact(p: Params, run: Run, n: nat)
    requires IsRun(p, run) && n < |run.steps| && IndexAgrees(run.states[n].db)
    ensures IndexAgrees(run.states[n + 1].db) <==> BeatsBusyQueue(run.states[n], run.steps[n])
  {
    assert StepAt(p, run, n);
    StepIndexExact(p, run.states[n], run.steps[n]);
  }

  /** Up to any state of a run, a queue is always in the index set of a state exactly when its sorted
  set for that state is not empty, if and only if every heartbeat so far found an active task in
  its queue. */
  lemma {:induction false} IndexSetsAgree(p: Params, run: Run, n: nat)
    requires IsRun(p, run) && n < |run.states|
    ensures (forall i :: 0 <= i <= n ==> IndexAgrees(run.states[i].db))
       <==> (forall i :: 0 <= i < n ==> BeatsBusyQueue(run.states[i], run.steps[i]))
  {
    if n > 0 {
      IndexSetsAgree(p, run, n - 1);
      if IndexAgrees(run.states[n - 1].db) { RunStepIndexExact(p, run, n - 1); }
    }
  }

  /** Timely workers meet that condition: their heartbeats name active ids. */
  lemma TimelyBeatsAreActive(p: Params, run: Run, n: nat)
    requires IsRun(p, run) && n < |run.steps| && TimelyUntil(p, run, n)
    ensures BeatsBusyQueue(run.states[n], run.steps[n])
    ensures run.steps[n].Beat? ==>
              run.steps[n].w in run.states[n].workers
              && run.steps[n].ids <= run.states[n].db.Z(Key(Active, run.states[n].workers[run.steps[n].w].queue)).Keys
  {
    var s, step := run.states[n], run.steps[n];
    RunsAreSound(p, run, n);
    assert StepAt(p, run, n);
    if step.Beat? {
      forall x | x in step.ids ensures x in s.db.Z(Key(Active, s.workers[step.w].queue)) {
        assert TaskOk(p, s.db, s.workers[step.w], x);
      }
    }
  }
}
