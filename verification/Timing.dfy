/** Time over runs: heartbeats renew the lease on a task, and a task that is delayed for a later time
is not queued before it. */
module Timing {
  import opened SortedSets
  import opened Wrappers
  import opened TaskDb
  import opened ScriptLaws
  import opened Protocol
  import opened Invariants
  import opened Effects
  import opened Runs
  import opened Meanings
  import opened StepMeanings
  import ExpiryLaws
  import Fairness

  // ---- leases --------------------------------------------------------------------------------

  /** The step is a heartbeat of worker `w` that names `x`. */
  predicate Beats(step: Step, w: WorkerId, x: Id) {
    step.Beat? && step.w == w && x in step.ids
  }

  /** Apart from heartbeats that name it, nothing changes the score of a task that stays active. */
  lemma OpKeepsActiveScore(db: Db, op: Op, q: Queue, x: Id)
    requires WellFormed(op) && db.Has(Active, q, x) && ApplyOp(db, op).Has(Active, q, x)
    requires !(op.Beating? && op.queue == q && x in op.ids)
    ensures ApplyOp(db, op).Z(Key(Active, q))[x] == db.Z(Key(Active, q))[x]
  {
    match op
    case Delaying(queue, r, state, score) => DelayMembers(db, queue, r, state, score);
    case Moving(id, queue, from, to, unique, when, mode) =>
      if db.Has(from, queue, id) { MoveMembers(db, id, queue, from, to, unique, when, mode); }
    case Taking(_, _, _, _) => PopKeepsActiveScore(db, op, q, x);
    case Queueing(_, _, _) => PopKeepsActiveScore(db, op, q, x);
    case Beating(queue, ids, now) => HeartbeatMeaning(db, queue, ids, now);
    case Rescheduled(queue, id, when) => RescheduleMeaning(db, queue, id, when);
    case _ =>
  }

  lemma PoppedKeepsActive(before: Db, after: Db, queue: Queue, count: int, now: real, later: real, q: Queue, x: Id)
    requires IsPopped(before, after, queue, count, now, later) && before.Has(Active, q, x)
    ensures after.Has(Active, q, x) && after.Z(Key(Active, q))[x] == before.Z(Key(Active, q))[x]
  {
    if queue == q {
      if IsTaken(before.Z(Key(Queued, q)), count, x) {
        assert SameIn(before.Z(Key(Active, q)), after.Z(Key(Active, q)), x);
      }
    }
  }

  lemma QueuedKeepsActive(before: Db, after: Db, queue: Queue, count: int, now: real, q: Queue, x: Id)
    requires IsQueuedWhenDue(before, after, queue, count, now) && before.Has(Active, q, x)
    ensures after.Has(Active, q, x) && after.Z(Key(Active, q))[x] == before.Z(Key(Active, q))[x]
  {}

  lemma PopKeepsActiveScore(db: Db, op: Op, q: Queue, x: Id)
    requires (op.Taking? || op.Queueing?) && db.Has(Active, q, x)
    ensures ApplyOp(db, op).Has(Active, q, x) && ApplyOp(db, op).Z(Key(Active, q))[x] == db.Z(Key(Active, q))[x]
  {
    if op.Taking? {
      PopMeaning(db, op.queue, op.count, op.now, op.later);
      PoppedKeepsActive(db, ApplyOp(db, op), op.queue, op.count, op.now, op.later, q, x);
    } else {
      DueMeaning(db, op.queue, op.count, op.now);
      QueuedKeepsActive(db, ApplyOp(db, op), op.queue, op.count, op.now, q, x);
    }
  }

  lemma BeatingIsBeat(p: Params, s: Sys, step: Step)
    requires Enabled(p, s, step)
    ensures var op := EffectOf(p, s, step);
            op.Beating? ==> step.Beat? && op.queue == s.workers[step.w].queue && op.ids == step.ids
  {}

  lemma StepKeepsActiveScore(p: Params, s: Sys, step: Step, q: Queue, x: Id)
    requires Enabled(p, s, step) && s.db.Has(Active, q, x) && Apply(p, s, step).db.Has(Active, q, x)
    requires !(step.Beat? && s.workers[step.w].queue == q && x in step.ids)
    ensures Apply(p, s, step).db.Z(Key(Active, q))[x] == s.db.Z(Key(Active, q))[x]
  {
    StepAppliesEffect(p, s, step);
    BeatingIsBeat(p, s, step);
    OpKeepsActiveScore(s.db, EffectOf(p, s, step), q, x);
  }

  /** The task stays active from step `i` to state `m`, and no heartbeat in between that names it has an
  earlier reading. */
  ghost predicate StaysBeaten(p: Params, run: Run, i: nat, m: nat, q: Queue, x: Id, now: real)
    requires IsRun(p, run) && i < m < |run.states|
  {
    forall k :: i < k <= m ==>
      && run.states[k].db.Has(Active, q, x)
      && (k < m && run.steps[k].Beat? && x in run.steps[k].ids ==> run.steps[k].now >= now)
  }

  lemma {:induction false} BeatLasts(p: Params, run: Run, i: nat, m: nat, q: Queue, x: Id)
    requires IsRun(p, run) && i < m < |run.states| && run.steps[i].Beat? && x in run.steps[i].ids
    requires run.steps[i].w in run.states[i].workers && run.states[i].workers[run.steps[i].w].queue == q
    requires StaysBeaten(p, run, i, m, q, x, run.steps[i].now)
    ensures run.states[m].db.Z(Key(Active, q))[x] >= run.steps[i].now
  {
    assert StepAt(p, run, m - 1);
    var s, step := run.states[m - 1], run.steps[m - 1];
    if m == i + 1 {
      BeatMeaning(p, s, step.w, step.ids, step.now);
    } else {
      assert StaysBeaten(p, run, i, m - 1, q, x, run.steps[i].now);
      BeatLasts(p, run, i, m - 1, q, x);
      if step.Beat? && s.workers[step.w].queue == q && x in step.ids {
        BeatMeaning(p, s, step.w, step.ids, step.now);
      } else {
        StepKeepsActiveScore(p, s, step, q, x);
      }
    }
  }

  /** A heartbeat renews the lease: until something moves the task, no listing whose time is less than
  the timeout after the heartbeat names it. */
  lemma BeatRenewsLease(p: Params, run: Run, i: nat, m: nat, q: Queue, x: Id)
    requires IsRun(p, run) && i < m < |run.steps| && run.steps[i].Beat? && x in run.steps[i].ids
    requires run.steps[i].w in run.states[i].workers && run.states[i].workers[run.steps[i].w].queue == q
    requires StaysBeaten(p, run, i, m, q, x, run.steps[i].now)
    requires run.steps[m].ListExpired? && run.steps[m].now < run.steps[i].now + p.timeout
    ensures run.states[m + 1].pass.Some? && (q, x) !in run.states[m + 1].pass.value.todo
  {
    var s, step := run.states[m], run.steps[m];
    BeatLasts(p, run, i, m, q, x);
    assert StepAt(p, run, m);
    ExpiryLaws.BatchIsExpired(s.db, step.queues, step.now - p.timeout, step.batch);
    var todo := ExpiredBatch(s.db, step.queues, step.now - p.timeout, step.batch);
    assert forall e :: e in todo ==> ExpiryLaws.Expired(s.db, step.now - p.timeout, e.0, e.1);
    assert !ExpiryLaws.Expired(s.db, step.now - p.timeout, q, x);
  }

  /** Worker `w` sets the score of `x`: it pops the task, or names it in a heartbeat. */
  ghost predicate Refreshes(s: Sys, step: Step, w: WorkerId, x: Id) {
    || Beats(step, w, x)
    || (step.Pop? && step.w == w
        && IsTaken(s.db.Z(Key(Queued, step.queue)), step.count, x) && !s.db.Has(Active, step.queue, x))
  }

  function RefreshTime(step: Step): real {
    if step.Beat? || step.Pop? then step.now else 0.0
  }

  /** Step `i` is the last before state `n` in which `w` refreshed the task, which it holds since. */
  ghost predicate LastRefresh(run: Run, i: nat, n: nat, w: WorkerId, x: Id) {
    && i < n < |run.states| && |run.states| == |run.steps| + 1
    && Refreshes(run.states[i], run.steps[i], w, x)
    && (forall k :: i < k < n ==> !Refreshes(run.states[k], run.steps[k], w, x))
    && (forall k :: i < k <= n ==> run.states[k].Holds(w, x))
  }

  /** The premise on behaviour: up to state `n` no worker lets the timeout pass after it last refreshed
  a task that it holds. */
  ghost predicate BeatsInTime(p: Params, run: Run, n: nat) {
    forall i: nat, k: nat, w, x: Id :: k <= n && LastRefresh(run, i, k, w, x) ==>
      run.states[k].clock < RefreshTime(run.steps[i]) + p.timeout
  }

  lemma NewlyHeld(p: Params, s: Sys, step: Step, w: WorkerId, x: Id)
    requires Enabled(p, s, step) && Apply(p, s, step).Holds(w, x) && !s.Holds(w, x)
    ensures Refreshes(s, step, w, x)
  {
    if step.Pop? {
      PopStepMeaning(p, s, step.w, step.queue, step.count, step.now, step.later);
    }
  }

  /** A held task was refreshed by its holder. */
  lemma {:induction false} FindRefresh(p: Params, run: Run, n: nat, w: WorkerId, x: Id) returns (i: nat)
    requires IsRun(p, run) && n < |run.states| && run.states[n].Holds(w, x)
    ensures LastRefresh(run, i, n, w, x)
  {
    assert n > 0;
    assert StepAt(p, run, n - 1);
    if Refreshes(run.states[n - 1], run.steps[n - 1], w, x) {
      i := n - 1;
    } else {
      if !run.states[n - 1].Holds(w, x) { NewlyHeld(p, run.states[n - 1], run.steps[n - 1], w, x); }
      i := FindRefresh(p, run, n - 1, w, x);
    }
  }

  /** Once refreshed, a held task has the time of its last refresh as its score. */
  lemma RefreshSetsScore(p: Params, s: Sys, step: Step, w: WorkerId, x: Id)
    requires Enabled(p, s, step) && Refreshes(s, step, w, x) && Inv(p, Apply(p, s, step))
    requires Apply(p, s, step).Holds(w, x)
    ensures Apply(p, s, step).db.Has(Active, p.home(x), x)
    ensures Apply(p, s, step).db.Z(Key(Active, p.home(x)))[x] == RefreshTime(step)
  {
    var after := Apply(p, s, step);
    assert TaskOk(p, after.db, after.workers[w], x);
    if step.Beat? {
      BeatMeaning(p, s, w, step.ids, step.now);
    } else {
      PopStepMeaning(p, s, step.w, step.queue, step.count, step.now, step.later);
      assert after.workers[w].queue == step.queue;
    }
  }

  lemma OnlyHolderBeats(p: Params, s: Sys, step: Step, w: WorkerId, x: Id)
    requires Inv(p, s) && Enabled(p, s, step) && s.Holds(w, x) && step.Beat? && x in step.ids
    ensures step.w == w
  {
    assert x in s.workers[step.w].tasks;
  }

  lemma HolderKeepsScore(p: Params, s: Sys, step: Step, w: WorkerId, x: Id)
    requires Enabled(p, s, step) && Inv(p, s) && Inv(p, Apply(p, s, step))
    requires s.Holds(w, x) && Apply(p, s, step).Holds(w, x) && !Refreshes(s, step, w, x)
    ensures s.db.Has(Active, p.home(x), x) && Apply(p, s, step).db.Has(Active, p.home(x), x)
    ensures Apply(p, s, step).db.Z(Key(Active, p.home(x)))[x] == s.db.Z(Key(Active, p.home(x)))[x]
  {
    var after := Apply(p, s, step);
    assert TaskOk(p, s.db, s.workers[w], x);
    assert TaskOk(p, after.db, after.workers[w], x);
    if step.Beat? && x in step.ids { OnlyHolderBeats(p, s, step, w, x); }
    StepKeepsActiveScore(p, s, step, p.home(x), x);
  }

  lemma {:induction false} HeldScore(p: Params, run: Run, i: nat, n: nat, w: WorkerId, x: Id)
    requires IsRun(p, run) && LastRefresh(run, i, n, w, x) && SoundTo(p, run, n)
    ensures run.states[n].db.Has(Active, p.home(x), x)
    ensures run.states[n].db.Z(Key(Active, p.home(x)))[x] == RefreshTime(run.steps[i])
  {
    if n == i + 1 {
      RefreshAt(p, run, i, w, x);
    } else {
      assert LastRefresh(run, i, n - 1, w, x);
      HeldScore(p, run, i, n - 1, w, x);
      HeldOn(p, run, n - 1, w, x);
    }
  }

  ghost predicate SoundTo(p: Params, run: Run, n: nat)
    requires n < |run.states|
  {
    forall k :: 0 <= k <= n ==> Inv(p, run.states[k])
  }

  lemma RefreshAt(p: Params, run: Run, i: nat, w: WorkerId, x: Id)
    requires IsRun(p, run) && i < |run.steps| && Refreshes(run.states[i], run.steps[i], w, x)
    requires run.states[i + 1].Holds(w, x) && Inv(p, run.states[i + 1])
    ensures run.states[i + 1].db.Has(Active, p.home(x), x)
    ensures run.states[i + 1].db.Z(Key(Active, p.home(x)))[x] == RefreshTime(run.steps[i])
  {
    assert StepAt(p, run, i);
    RefreshSetsScore(p, run.states[i], run.steps[i], w, x);
  }

  lemma HeldOn(p: Params, run: Run, k: nat, w: WorkerId, x: Id)
    requires IsRun(p, run) && k < |run.steps| && Inv(p, run.states[k]) && Inv(p, run.states[k + 1])
    requires run.states[k].Holds(w, x) && run.states[k + 1].Holds(w, x)
    requires !Refreshes(run.states[k], run.steps[k], w, x)
    ensures var q := p.home(x);
            && run.states[k].db.Has(Active, q, x) && run.states[k + 1].db.Has(Active, q, x)
            && run.states[k + 1].db.Z(Key(Active, q))[x] == run.states[k].db.Z(Key(Active, q))[x]
  {
    assert StepAt(p, run, k);
    HolderKeepsScore(p, run.states[k], run.steps[k], w, x);
  }

  lemma {:induction false} SoundUntil(p: Params, run: Run, n: nat)
    requires IsRun(p, run) && n < |run.states| && forall i :: 0 <= i < n ==> Timely(p, run.states[i])
    ensures SoundTo(p, run, n)
  {
    if n == 0 {
      StartIsSound(p);
    } else {
      SoundUntil(p, run, n - 1);
      assert StepAt(p, run, n - 1);
      StepKeepsInv(p, run.states[n - 1], run.steps[n - 1]);
    }
  }

  /** The timing premise of the theorems about runs follows from what workers do: if none lets the
  timeout pass after its last heartbeat for a task that it holds, or after its pop, the run is timely. */
  lemma {:induction false} BeatsMakeTimely(p: Params, run: Run, n: nat)
    requires IsRun(p, run) && n < |run.states| && BeatsInTime(p, run, n)
    ensures TimelyUntil(p, run, n)
  {
    if n > 0 { BeatsMakeTimely(p, run, n - 1); }
    SoundUntil(p, run, n);
    var s := run.states[n];
    forall w, x | w in s.workers && x in s.workers[w].tasks && s.db.Has(Active, p.home(x), x)
      ensures s.clock < s.db.Z(Key(Active, p.home(x)))[x] + p.timeout
    {
      var i := FindRefresh(p, run, n, w, x);
      HeldScore(p, run, i, n, w, x);
    }
    assert Timely(p, s);
  }

  // ---- due times -----------------------------------------------------------------------------------

  /** The operation puts `x` into the scheduled set of `q`, or may give it another time there. */
  predicate OpRetimes(db: Db, op: Op, q: Queue, x: Id) {
    match op
    case Delaying(queue, r, state, _) => queue == q && state.Scheduled? && r.id == x && !db.Has(Scheduled, q, x)
    case Moving(id, queue, from, to, _, _, _) =>
      queue == q && to == Some(Scheduled) && id == x && db.Has(from, q, x)
    case Taking(queue, _, _, _) => queue == q && db.Has(Queued, q, x) && db.Has(Active, q, x)
    case Rescheduled(queue, id, _) => queue == q && id == x
    case _ => false
  }

  lemma OpKeepsTime(db: Db, op: Op, q: Queue, x: Id)
    requires WellFormed(op) && !OpRetimes(db, op, q, x) && ApplyOp(db, op).Has(Scheduled, q, x)
    ensures db.Has(Scheduled, q, x)
    ensures ApplyOp(db, op).Z(Key(Scheduled, q))[x] == db.Z(Key(Scheduled, q))[x]
  {
    match op
    case Delaying(queue, r, state, score) => DelayMembers(db, queue, r, state, score);
    case Moving(id, queue, from, to, unique, when, mode) =>
      if db.Has(from, queue, id) {
        MoveMembers(db, id, queue, from, to, unique, when, mode);
        if to.Some? { AddedHasMember(db.Z(Key(to.value, queue)), when, id, mode); }
      }
    case Taking(queue, count, now, later) =>
      PopMeaning(db, queue, count, now, later);
      PoppedKeepsTime(db, ApplyOp(db, op), queue, count, now, later, q, x);
    case Queueing(queue, count, now) =>
      DueMeaning(db, queue, count, now);
      QueuedKeepsTime(db, ApplyOp(db, op), queue, count, now, q, x);
    case Beating(queue, ids, now) => HeartbeatMeaning(db, queue, ids, now);
    case Rescheduled(queue, id, when) => RescheduleMeaning(db, queue, id, when);
    case _ =>
  }

  lemma PoppedKeepsTime(before: Db, after: Db, queue: Queue, count: int, now: real, later: real, q: Queue, x: Id)
    requires IsPopped(before, after, queue, count, now, later) && after.Has(Scheduled, q, x)
    requires !(queue == q && before.Has(Queued, q, x) && before.Has(Active, q, x))
    ensures before.Has(Scheduled, q, x)
    ensures after.Z(Key(Scheduled, q))[x] == before.Z(Key(Scheduled, q))[x]
  {
    if queue == q {
      assert IsTaken(before.Z(Key(Queued, q)), count, x) ==> x !in before.Z(Key(Active, q));
      assert SameIn(before.Z(Key(Scheduled, q)), after.Z(Key(Scheduled, q)), x);
    }
  }

  lemma QueuedKeepsTime(before: Db, after: Db, queue: Queue, count: int, now: real, q: Queue, x: Id)
    requires IsQueuedWhenDue(before, after, queue, count, now) && after.Has(Scheduled, q, x)
    ensures before.Has(Scheduled, q, x)
    ensures after.Z(Key(Scheduled, q))[x] == before.Z(Key(Scheduled, q))[x]
  {}

  /** A lock miss, a failed run, an update, a collision, or a delay to a later time. */
  ghost predicate RetimesAt(p: Params, run: Run, k: nat, x: Id)
    requires IsRun(p, run) && k < |run.steps|
  {
    assert StepAt(p, run, k);
    OpRetimes(run.states[k].db, EffectOf(p, run.states[k], run.steps[k]), p.home(x), x)
  }

  /** Step `i` delays `x`, which is not scheduled yet, for the later time `due`. */
  ghost predicate DelaysFor(p: Params, run: Run, i: nat, x: Id, due: real)
    requires i < |run.steps| < |run.states|
  {
    var s, step := run.states[i], run.steps[i];
    && step.DelayTask? && step.record.id == x && step.due == Some(due) && due > step.now
    && !s.db.Has(Scheduled, p.home(x), x)
  }

  lemma {:induction false} KeepsDueTime(p: Params, run: Run, i: nat, m: nat, x: Id, due: real)
    requires IsRun(p, run) && i < m < |run.states| && DelaysFor(p, run, i, x, due)
    requires forall k :: i < k < m ==> !RetimesAt(p, run, k, x)
    ensures run.states[m].db.Has(Scheduled, p.home(x), x) ==>
              run.states[m].db.Z(Key(Scheduled, p.home(x)))[x] == due
  {
    var s, step := run.states[m - 1], run.steps[m - 1];
    assert StepAt(p, run, m - 1);
    if m == i + 1 {
      DelayStepMeaning(p, s, step.record, step.due, step.now);
    } else {
      KeepsDueTime(p, run, i, m - 1, x, due);
      assert !RetimesAt(p, run, m - 1, x);
      StepAppliesEffect(p, s, step);
      if run.states[m].db.Has(Scheduled, p.home(x), x) {
        OpKeepsTime(s.db, EffectOf(p, s, step), p.home(x), x);
      }
    }
  }

  /** A task enters its queue by the scheduling pass, or by a delay, a retry, a next period or an expiry
  of its own. */
  predicate QueuesItself(s: Sys, step: Step, x: Id) {
    || (step.DelayTask? && step.record.id == x)
    || (step.RetryTask? && step.id == x)
    || (step.Begin? && step.id == x)
    || (step.MoveExpired? && Pending(s) && s.pass.value.probe.Found? && s.pass.value.probe.record.id == x)
  }

  lemma EntryRoutes(p: Params, s: Sys, step: Step, x: Id)
    requires Enabled(p, s, step) && x in Fairness.ArrivalsOf(p, s, step, p.home(x))
    ensures QueuesItself(s, step, x) || (step.QueueScheduled? && step.queue == p.home(x))
  {}

  lemma PassQueuesDueTasks(p: Params, s: Sys, step: Step, x: Id)
    requires Enabled(p, s, step) && step.QueueScheduled? && step.queue == p.home(x)
    requires !s.db.Has(Queued, p.home(x), x) && Apply(p, s, step).db.Has(Queued, p.home(x), x)
    ensures s.db.Has(Scheduled, p.home(x), x) && s.db.Z(Key(Scheduled, p.home(x)))[x] <= step.now <= s.clock
  {
    QueueScheduledMeaning(p, s, step.queue, step.count, step.now);
  }

  /** Never early: a task that is delayed for a later time, and is given no other, enters its queue no
  earlier than that time, unless something other than the scheduling pass queues it. */
  lemma NotQueuedBeforeDue(p: Params, run: Run, i: nat, m: nat, x: Id, due: real)
    requires IsRun(p, run) && i < m < |run.steps| && DelaysFor(p, run, i, x, due)
    requires forall k :: i < k < m ==> !RetimesAt(p, run, k, x)
    requires !run.states[m].db.Has(Queued, p.home(x), x) && run.states[m + 1].db.Has(Queued, p.home(x), x)
    ensures QueuesItself(run.states[m], run.steps[m], x)
            || (run.steps[m].QueueScheduled? && due <= run.steps[m].now <= run.states[m].clock)
  {
    var s, step := run.states[m], run.steps[m];
    assert StepAt(p, run, m);
    if x !in Fairness.ArrivalsOf(p, s, step, p.home(x)) {
      Fairness.StayedQueued(p, s, step, p.home(x), x);
    } else {
      EntryRoutes(p, s, step, x);
      if !QueuesItself(s, step, x) {
        PassQueuesDueTasks(p, s, step, x);
        KeepsDueTime(p, run, i, m, x, due);
      }
    }
  }
}
