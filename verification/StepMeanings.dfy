/** What each step of the protocol does, id by id. */
module StepMeanings {
  import opened SortedSets
  import opened Wrappers
  import opened TaskDb
  import opened ScriptLaws
  import opened Protocol
  import opened Meanings
  import ExpiryLaws

  // ---- users ---------------------------------------------------------------------------------

  /** A delay: the id's place and score, and the record with its scheduled time. */
  lemma DelayStepMeaning(p: Params, s: Sys, r: Record, due: Option<real>, now: real)
    requires Enabled(p, s, DelayTask(r, due, now))
    ensures var after := Apply(p, s, DelayTask(r, due, now));
            && IsDelayed(s.db, after.db, p.home(r.id), r.id, due, now)
            && r.id in after.db.records
            && after.db.records[r.id] == r.(scheduledAt := if due.Some? && due.value > now then due.value else now)
            && after.workers == s.workers
  {
    DelayIsDelayed(p, s, r, due, now);
  }

  lemma DelayIsDelayed(p: Params, s: Sys, r: Record, due: Option<real>, now: real)
    ensures IsDelayed(s.db, Delayed(p, s, r, due, now).db, p.home(r.id), r.id, due, now)
  {
    var (state, score) := DelayTarget(due, now);
    DelayEnters(s.db, p.home(r.id), r.(scheduledAt := score), state, score);
  }

  /** A user's moves of a task that is where the user expects it; otherwise nothing changes. */
  lemma UserMoveMeaning(p: Params, s: Sys, x: Id, now: real)
    ensures var q := p.home(x);
            && (s.db.Has(Error, q, x) && Enabled(p, s, RetryTask(x, now)) ==>
                  IsMoved(s.db, Apply(p, s, RetryTask(x, now)).db, Key(Error, q), Key(Queued, q), x, now))
            && (s.db.Has(Scheduled, q, x) ==> IsRemoved(s.db, Apply(p, s, CancelTask(x)).db, Key(Scheduled, q), x))
            && (s.db.Has(Error, q, x) ==> IsRemoved(s.db, Apply(p, s, DeleteTask(x)).db, Key(Error, q), x))
            && (!s.db.Has(Scheduled, q, x) ==> Apply(p, s, CancelTask(x)) == s)
            && (!s.db.Has(Error, q, x) ==> Apply(p, s, DeleteTask(x)) == s)
            && (!s.db.Has(Error, q, x) && Enabled(p, s, RetryTask(x, now)) ==> Apply(p, s, RetryTask(x, now)) == s)
  {
    var q := p.home(x);
    if s.db.Has(Error, q, x) {
      MoveMeaning(s.db, x, q, Error, Some(Queued), p.unique(x), now, Plain);
      MoveMeaning(s.db, x, q, Error, None, p.unique(x), s.clock, Plain);
    }
    if s.db.Has(Scheduled, q, x) {
      MoveMeaning(s.db, x, q, Scheduled, None, p.unique(x), s.clock, Plain);
    }
  }

  lemma UpdateMeaning(p: Params, s: Sys, x: Id, when: real)
    ensures var after, k := Apply(p, s, UpdateScheduled(x, when)), Key(Scheduled, p.home(x));
            if s.db.Has(Scheduled, p.home(x), x)
            then after.db.Z(k) == s.db.Z(k)[x := when] && SameElsewhere(s.db, after.db, {k})
                 && (x in s.db.records ==> x in after.db.records && after.db.records[x].scheduledAt == when)
            else after == s
  {
    RescheduleMeaning(s.db, p.home(x), x, when);
  }

  // ---- workers ---------------------------------------------------------------------------------

  lemma PopStepMeaning(p: Params, s: Sys, w: WorkerId, q: Queue, count: int, now: real, later: real)
    requires Enabled(p, s, Pop(w, q, count, now, later))
    ensures var after := Apply(p, s, Pop(w, q, count, now, later));
            && IsPopped(s.db, after.db, q, count, now, later)
            && (forall x :: after.Holds(w, x) <==> IsTaken(s.db.Z(Key(Queued, q)), count, x) && !s.db.Has(Active, q, x))
  {
    PopMeaning(s.db, q, count, now, later);
    var after := Apply(p, s, Pop(w, q, count, now, later));
    forall x ensures after.Holds(w, x) <==> x in PopQueued(s.db, q, count, now, later).1 {}
  }

  /** A lock miss: the task is scheduled for `when`, or earlier if it was. */
  lemma LockMissMeaning(p: Params, s: Sys, w: WorkerId, id: Id, when: real)
    requires Enabled(p, s, LockMiss(w, id, when))
    requires s.workers[w].tasks[id].record.id == id && s.db.Has(Active, s.workers[w].queue, id)
    ensures var after, q := Apply(p, s, LockMiss(w, id, when)), s.workers[w].queue;
            && IsMoved(s.db, after.db, Key(Active, q), Key(Scheduled, q), id,
                       Earlier(s.db.Z(Key(Scheduled, q)), id, when))
            && !after.Holds(w, id)
  {
    MoveMeaning(s.db, id, s.workers[w].queue, Active, Some(Scheduled), s.workers[w].tasks[id].record.unique, when, Min);
  }

  /** Before a periodic task runs it is delayed for its next period; other tasks change nothing. */
  lemma BeginMeaning(p: Params, s: Sys, w: WorkerId, id: Id, next: Option<real>, now: real)
    requires Enabled(p, s, Begin(w, id, next, now))
    ensures var after := Apply(p, s, Begin(w, id, next, now));
            && (next.Some? ==> IsDelayed(s.db, after.db, p.home(id), id, next, now))
            && (next.None? ==> after.db == s.db)
            && Working(after, w, id)
  {
    if next.Some? { DelayIsDelayed(p, s, s.workers[w].tasks[id].record.(id := id), next, now); }
  }

  lemma BeatMeaning(p: Params, s: Sys, w: WorkerId, ids: set<Id>, now: real)
    requires Enabled(p, s, Beat(w, ids, now))
    ensures IsRefreshed(s.db, Apply(p, s, Beat(w, ids, now)).db, s.workers[w].queue, ids, now)
  {
    HeartbeatMeaning(s.db, s.workers[w].queue, ids, now);
  }

  /** The end of a run: the task is removed, or goes where and when its decision says. */
  lemma FinishMeaning(p: Params, s: Sys, w: WorkerId, id: Id, decision: Decision, now: real)
    requires Enabled(p, s, Finish(w, id, decision, now))
    requires s.workers[w].tasks[id].record.id == id && s.db.Has(Active, s.workers[w].queue, id)
    ensures var after, q := Apply(p, s, Finish(w, id, decision, now)), s.workers[w].queue;
            && !after.Holds(w, id)
            && match decision
               case Done => IsRemoved(s.db, after.db, Key(Active, q), id)
               case MoveTo(state, when) => IsMoved(s.db, after.db, Key(Active, q), Key(state, q), id, when)
  {
    var r, q := s.workers[w].tasks[id].record, s.workers[w].queue;
    match decision
    case Done => MoveMeaning(s.db, id, q, Active, None, r.unique, now, Plain);
    case MoveTo(state, when) => MoveMeaning(s.db, id, q, Active, Some(state), r.unique, when, Plain);
  }

  // ---- passes ------------------------------------------------------------------------------------

  lemma QueueScheduledMeaning(p: Params, s: Sys, q: Queue, count: int, now: real)
    requires Enabled(p, s, QueueScheduled(q, count, now))
    ensures IsQueuedWhenDue(s.db, Apply(p, s, QueueScheduled(q, count, now)).db, q, count, now)
  {
    DueMeaning(s.db, q, count, now);
  }

  /** The move of an expiry pass, with the time of its listing. */
  lemma MoveExpiredMeaning(p: Params, s: Sys, retriable: bool)
    requires Enabled(p, s, MoveExpired(retriable))
    requires var (q, x) := s.pass.value.todo[0]; s.pass.value.probe.record.id == x && s.db.Has(Active, q, x)
    ensures var after, (q, x), now := Apply(p, s, MoveExpired(retriable)), s.pass.value.todo[0], s.pass.value.now;
            var queued := s.db.Z(Key(Queued, q));
            && after.pass == Some(Pass(now, s.pass.value.todo[1..], Unprobed))
            && if retriable
               then IsMoved(s.db, after.db, Key(Active, q), Key(Queued, q), x, if x in queued then queued[x] else now)
               else IsMoved(s.db, after.db, Key(Active, q), Key(Error, q), x, now)
  {
    var (q, x) := s.pass.value.todo[0];
    var unique := s.pass.value.probe.record.unique;
    MoveMeaning(s.db, x, q, Active, Some(Queued), unique, s.pass.value.now, Nx);
    MoveMeaning(s.db, x, q, Active, Some(Error), unique, s.pass.value.now, Plain);
  }

  /** The listing of an expiry pass: tasks whose last heartbeat is at least the timeout before its time,
  none twice, and all of them unless the batch is full. */
  lemma ListExpiredMeaning(p: Params, s: Sys, queues: seq<Queue>, batch: int, now: real)
    requires Enabled(p, s, ListExpired(queues, batch, now)) && IndexAgrees(s.db) && batch >= 0
    ensures var pass := Apply(p, s, ListExpired(queues, batch, now)).pass;
            && pass.Some? && pass.value.now == now && NoRepeats(pass.value.todo) && |pass.value.todo| <= batch
            && (forall q, x :: (q, x) in pass.value.todo ==>
                  s.db.Has(Active, q, x) && 0.0 <= s.db.Z(Key(Active, q))[x] <= now - p.timeout)
            && (|pass.value.todo| < batch ==>
                  forall q, x :: s.db.Has(Active, q, x) && 0.0 <= s.db.Z(Key(Active, q))[x] <= now - p.timeout ==>
                    (q, x) in pass.value.todo)
  {
    ListedMeaning(s.db, queues, now - p.timeout, batch);
  }

  lemma ListedMeaning(db: Db, queues: seq<Queue>, cutoff: real, batch: int)
    requires IndexAgrees(db) && ListsActive(db, queues) && batch >= 0
    ensures var todo := ExpiredBatch(db, queues, cutoff, batch);
            && NoRepeats(todo) && |todo| <= batch
            && (forall q, x :: (q, x) in todo ==> db.Has(Active, q, x) && 0.0 <= db.Z(Key(Active, q))[x] <= cutoff)
            && (|todo| < batch ==>
                  forall q, x :: db.Has(Active, q, x) && 0.0 <= db.Z(Key(Active, q))[x] <= cutoff ==> (q, x) in todo)
  {
    var todo := ExpiredBatch(db, queues, cutoff, batch);
    ExpiryLaws.ListingIsComplete(db, queues, cutoff, batch);
    ExpiryLaws.ExpiredAllMembers(db, cutoff);
    forall q, x | (q, x) in todo ensures ExpiryLaws.Expired(db, cutoff, q, x) {
      assert (q, x) in ExpiryLaws.ExpiredAll(db, cutoff);
    }
  }
}
