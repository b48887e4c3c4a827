/** How often, and how far apart, a task is run that always fails and is always to be retried. */
module RetryRuns {
  import opened SortedSets
  import opened Wrappers
  import opened TaskDb
  import opened ScriptLaws
  import opened Protocol
  import opened Invariants
  import opened Steps
  import opened Runs
  import opened Decisions
  import Retry

  /** The premise on the steps that concern the non-unique task `x`: nobody but its workers
  touches it after the one delay, none of them dies, every run stores one failure, and every
  failure is to be retried by method `m`. */
  ghost predicate FailsRetriably(p: Params, s: Sys, step: Step, x: Id, m: Retry.Method, default: Retry.Method) {
    && step != CancelTask(x) && step != DeleteTask(x)
    && (step.RetryTask? || step.UpdateScheduled? ==> step.id != x)
    && (step.Die? ==> !s.Holds(step.w, x))
    && (step.StoreFailure? && step.id == x && Working(s, step.w, x) ==> s.workers[step.w].tasks[x].failures == 0)
    && (step.Finish? && step.id == x && Working(s, step.w, x) ==>
          var r, last := s.workers[step.w].tasks[x].record, LastExecution(s.db, x);
          && s.workers[step.w].tasks[x].failures == 1
          && ChosenMethod(r, default, last) == Some(m)
          && step.decision == Decide(r, default, false, last, s.db.Count(x), step.now))
  }

  /** The earliest start of a run that follows `failures` failures. */
  function Earliest(s: Sys, x: Id, m: Retry.Method, failures: nat): real
    requires !m.Unimportable? && x in s.ledger.firstFinish
  {
    s.ledger.firstFinish[x] + Retry.TotalWait(m, failures)
  }

  /** `time` is late enough for a run that follows `failures` failures. */
  predicate LateEnough(s: Sys, x: Id, m: Retry.Method, failures: nat, time: real)
    requires !m.Unimportable?
  {
    if failures == 0 then x !in s.ledger.firstFinish
    else x in s.ledger.firstFinish && time >= Earliest(s, x, m, failures)
  }

  /** Between two runs: as many runs as failures, and another run is due. */
  predicate Between(s: Sys, x: Id, m: Retry.Method, time: real)
    requires !m.Unimportable?
  {
    var c := s.db.Count(x);
    Starts(s, x) == c && c < Retry.MaxRuns(m) && LateEnough(s, x, m, c, time)
  }

  predicate ProgressFits(s: Sys, x: Id, m: Retry.Method, progress: Progress)
    requires !m.Unimportable?
  {
    var c := s.db.Count(x);
    if !progress.Running? then Between(s, x, m, s.clock)
    else if progress.failures == 0 then
      Starts(s, x) == c + 1 <= Retry.MaxRuns(m) && LateEnough(s, x, m, c, progress.startedAt)
    else
      progress.failures == 1 && Starts(s, x) == c && 1 <= c <= Retry.MaxRuns(m)
      && LateEnough(s, x, m, c - 1, progress.startedAt)
  }

  predicate Nowhere(p: Params, s: Sys, x: Id) {
    forall st: State :: !s.db.Has(st, p.home(x), x)
  }

  ghost predicate OnCourse(p: Params, s: Sys, x: Id, m: Retry.Method)
    requires !m.Unimportable?
  {
    && (s.db.Has(Queued, p.home(x), x) ==> Between(s, x, m, s.clock))
    && (s.db.Has(Scheduled, p.home(x), x) ==>
          Between(s, x, m, s.clock) || Between(s, x, m, ScheduledFor(s, p.home(x), x)))
    && (s.db.Has(Active, p.home(x), x) ==> s.Held(x))
    && (forall w :: w in s.workers && s.Holds(w, x) ==> ProgressFits(s, x, m, s.workers[w].tasks[x]))
    && (s.db.Has(Error, p.home(x), x) || (x in s.ledger.delayed && Nowhere(p, s, x)) ==>
          Starts(s, x) == Retry.MaxRuns(m))
    && (x !in s.ledger.delayed ==> Starts(s, x) == 0 && s.db.Count(x) == 0 && x !in s.ledger.firstFinish)
  }

  /** Nothing that concerns `x` differs, except that time may have passed. */
  ghost predicate Untouched(p: Params, s: Sys, t: Sys, x: Id) {
    && (forall st: State :: t.db.Has(st, p.home(x), x) == s.db.Has(st, p.home(x), x))
    && ScheduledFor(t, p.home(x), x) == ScheduledFor(s, p.home(x), x)
    && SameBooks(s, t, x)
    && (forall w :: t.Holds(w, x) <==> s.Holds(w, x))
    && (forall w :: w in t.workers && t.Holds(w, x) && s.Holds(w, x) ==>
          t.workers[w].tasks[x] == s.workers[w].tasks[x]
          || (!t.workers[w].tasks[x].Running? && !s.workers[w].tasks[x].Running?))
  }

  predicate SameBooks(s: Sys, t: Sys, x: Id) {
    && t.db.Count(x) == s.db.Count(x) && Starts(t, x) == Starts(s, x)
    && (x in t.ledger.firstFinish <==> x in s.ledger.firstFinish)
    && (x in t.ledger.firstFinish ==> t.ledger.firstFinish[x] == s.ledger.firstFinish[x])
    && (x in t.ledger.delayed <==> x in s.ledger.delayed)
    && t.clock >= s.clock
  }

  lemma SameBooksBetween(s: Sys, t: Sys, x: Id, m: Retry.Method, a: real, b: real)
    requires !m.Unimportable? && SameBooks(s, t, x) && b >= a
    ensures Between(s, x, m, a) ==> Between(t, x, m, b)
  {}

  lemma UntouchedStaysOnCourse(p: Params, s: Sys, t: Sys, x: Id, m: Retry.Method)
    requires !m.Unimportable? && OnCourse(p, s, x, m) && Untouched(p, s, t, x)
    ensures OnCourse(p, t, x, m)
  {
    SameBooksBetween(s, t, x, m, s.clock, t.clock);
    SameBooksBetween(s, t, x, m, ScheduledFor(s, p.home(x), x), ScheduledFor(t, p.home(x), x));
    assert Nowhere(p, t, x) ==> Nowhere(p, s, x);
    if s.Held(x) {
      var w :| w in s.workers && s.Holds(w, x);
      assert t.Holds(w, x);
    }
    forall w | w in t.workers && t.Holds(w, x) ensures ProgressFits(t, x, m, t.workers[w].tasks[x]) {
      assert s.Holds(w, x) && ProgressFits(s, x, m, s.workers[w].tasks[x]);
    }
  }

  lemma SameIdUntouched(p: Params, s: Sys, t: Sys, x: Id)
    requires SameId(s.db, t.db, x) && SameBooks(s, t, x)
    requires forall w :: t.Holds(w, x) <==> s.Holds(w, x)
    requires forall w :: w in t.workers && t.Holds(w, x) && s.Holds(w, x) ==>
               t.workers[w].tasks[x] == s.workers[w].tasks[x]
               || (!t.workers[w].tasks[x].Running? && !s.workers[w].tasks[x].Running?)
    ensures Untouched(p, s, t, x)
  {
    forall st: State ensures t.db.Has(st, p.home(x), x) == s.db.Has(st, p.home(x), x) {
      assert x in t.db.Z(Key(st, p.home(x))) <==> x in s.db.Z(Key(st, p.home(x)));
    }
  }

  /** A move of another task. */
  lemma OtherMoveUntouched(db: Db, id: Id, queue: Queue, from: State, to: Option<State>, unique: bool,
                           when: real, mode: Mode, x: Id)
    requires MoveMode(mode) && to != Some(from) && id != x
    ensures var r := Move(db, id, queue, from, to, unique, when, mode);
            r.Ok? ==> SameId(db, r.value, x) && r.value.Count(x) == db.Count(x)
  {
    if db.Has(from, queue, id) {
      MoveFrame(db, id, queue, from, to, unique, when, mode, x);
      MoveDeletes(db, id, queue, from, to, unique, when, mode);
    }
  }

  lemma UserMoveUntouched(p: Params, s: Sys, id: Id, from: State, to: Option<State>, when: real, x: Id)
    requires id != x && to != Some(from)
    ensures Untouched(p, s, UserMove(p, s, id, from, to, when), x)
  {
    OtherMoveUntouched(s.db, id, p.home(id), from, to, p.unique(id), when, Plain, x);
    SameIdUntouched(p, s, UserMove(p, s, id, from, to, when), x);
  }

  lemma WorkerMoveUntouched(p: Params, s: Sys, w: WorkerId, id: Id, r: Record, to: Option<State>,
                            when: real, mode: Mode, x: Id)
    requires Inv(p, s) && s.Holds(w, id) && Fits(p, id, r) && MoveMode(mode) && to != Some(Active)
    requires id != x
    ensures Untouched(p, s, WorkerMove(s, w, id, r.id, to, r.unique, when, mode), x)
  {
    var t := WorkerMove(s, w, id, r.id, to, r.unique, when, mode);
    OtherMoveUntouched(s.db, id, s.workers[w].queue, Active, to, r.unique, when, mode, x);
    WorkerMoveKeepsInv(p, s, w, id, r, to, when, mode);
    assert TaskOk(p, s.db, s.workers[w], id);
    forall v ensures t.Holds(v, x) <==> s.Holds(v, x) {}
    SameIdUntouched(p, s, t, x);
  }

  lemma DelayUntouched(p: Params, s: Sys, r: Record, due: Option<real>, now: real, x: Id)
    requires r.id != x
    ensures Untouched(p, s, Delayed(p, s, r, due, now), x)
  {
    var (state, score) := DelayTarget(due, now);
    DelayMembers(s.db, p.home(r.id), r.(scheduledAt := score), state, score);
    AddedHasMember(s.db.Z(Key(state, p.home(r.id))), score, r.id, Nx);
    SameIdUntouched(p, s, Delayed(p, s, r, due, now), x);
  }

  // ---- the steps of the task itself ------------------------------------------------------------

  ghost predicate OnlyAt(p: Params, db: Db, x: Id, state: State) {
    forall st: State :: db.Has(st, p.home(x), x) <==> st == state
  }

  ghost predicate Unheld(s: Sys, x: Id) {
    forall w :: w in s.workers ==> !s.Holds(w, x)
  }

  lemma QueuedOnCourse(p: Params, t: Sys, x: Id, m: Retry.Method, state: State)
    requires !m.Unimportable? && (state.Queued? || state.Scheduled?) && OnlyAt(p, t.db, x, state)
    requires Unheld(t, x) && x in t.ledger.delayed
    requires Between(t, x, m, t.clock) || (state.Scheduled? && Between(t, x, m, ScheduledFor(t, p.home(x), x)))
    ensures OnCourse(p, t, x, m)
  {
    assert t.db.Has(state, p.home(x), x);
  }

  lemma HeldOnCourse(p: Params, t: Sys, x: Id, m: Retry.Method, w: WorkerId)
    requires !m.Unimportable? && OnlyAt(p, t.db, x, Active) && x in t.ledger.delayed
    requires w in t.workers && t.Holds(w, x) && forall v :: v in t.workers && t.Holds(v, x) ==> v == w
    requires ProgressFits(t, x, m, t.workers[w].tasks[x])
    ensures OnCourse(p, t, x, m)
  {
    assert t.db.Has(Active, p.home(x), x);
  }

  lemma FinishedOnCourse(p: Params, t: Sys, x: Id, m: Retry.Method)
    requires !m.Unimportable? && Unheld(t, x) && x in t.ledger.delayed
    requires OnlyAt(p, t.db, x, Error) || Nowhere(p, t, x)
    requires Starts(t, x) == Retry.MaxRuns(m)
    ensures OnCourse(p, t, x, m)
  {}

  lemma NotActiveIsUnheld(p: Params, s: Sys, x: Id)
    requires Inv(p, s) && !s.db.Has(Active, p.home(x), x)
    ensures Unheld(s, x)
  {
    forall w | w in s.workers ensures !s.Holds(w, x) {
      assert x in s.workers[w].tasks ==> TaskOk(p, s.db, s.workers[w], x);
    }
  }

  lemma OnePlace(p: Params, s: Sys, x: Id, state: State)
    requires Inv(p, s) && !p.unique(x) && s.db.Has(state, p.home(x), x)
    ensures OnlyAt(p, s.db, x, state) && x in s.ledger.delayed
  {
    assert IdOk(p, s.db, s.ledger, x);
    assert x in s.db.Z(Key(state, p.home(x)));
    forall st: State ensures s.db.Has(st, p.home(x), x) <==> st == state {
      if s.db.Has(st, p.home(x), x) { assert x in s.db.Z(Key(st, p.home(x))); }
    }
  }

  lemma FirstDelayOnCourse(p: Params, s: Sys, r: Record, due: Option<real>, now: real, m: Retry.Method)
    requires Inv(p, s) && !m.Unimportable? && OnCourse(p, s, r.id, m) && r.id !in s.ledger.delayed
    ensures OnCourse(p, Delayed(p, s, r, due, now), r.id, m)
  {
    var x, t := r.id, Delayed(p, s, r, due, now);
    var (state, score) := DelayTarget(due, now);
    DelayMembers(s.db, p.home(x), r.(scheduledAt := score), state, score);
    AddedHasMember(s.db.Z(Key(state, p.home(x))), score, x, Nx);
    assert IdOk(p, s.db, s.ledger, x);
    forall st: State ensures t.db.Has(st, p.home(x), x) <==> st == state {
      assert x !in s.db.Z(Key(st, p.home(x)));
    }
    assert !s.db.Has(Active, p.home(x), x) by { assert x !in s.db.Z(Key(Active, p.home(x))); }
    NotActiveIsUnheld(p, s, x);
    QueuedOnCourse(p, t, x, m, state);
  }

  lemma PopOnCourse(p: Params, s: Sys, w: WorkerId, queue: Queue, count: int, now: real, later: real,
                    x: Id, m: Retry.Method)
    requires Inv(p, s) && !m.Unimportable? && !p.unique(x) && OnCourse(p, s, x, m) && w !in s.workers
    ensures OnCourse(p, Popping(s, w, queue, count, now, later), x, m)
  {
    if x in PopQueued(s.db, queue, count, now, later).1 {
      PopHeld(p, s, w, queue, count, now, later, x, m);
    } else {
      assert IdOk(p, s.db, s.ledger, x);
      UnpoppedIsSame(p, s.db, queue, count, now, later, x);
      PopMisses(p, s, w, queue, count, now, later, x);
      UntouchedStaysOnCourse(p, s, Popping(s, w, queue, count, now, later), x, m);
    }
  }

  lemma PopMisses(p: Params, s: Sys, w: WorkerId, queue: Queue, count: int, now: real, later: real, x: Id)
    requires w !in s.workers && x !in PopQueued(s.db, queue, count, now, later).1
    requires var after := PopQueued(s.db, queue, count, now, later).0;
             && (forall k :: x in after.Z(k) <==> x in s.db.Z(k))
             && (forall k: Key :: k.state.Scheduled? && x in s.db.Z(k) ==> after.Z(k)[x] == s.db.Z(k)[x])
             && after.Count(x) == s.db.Count(x)
    ensures Untouched(p, s, Popping(s, w, queue, count, now, later), x)
  {
    var t := Popping(s, w, queue, count, now, later);
    forall v ensures t.Holds(v, x) <==> s.Holds(v, x) {}
    SameScoresUntouched(p, s, t, x);
  }

  lemma PopHeld(p: Params, s: Sys, w: WorkerId, queue: Queue, count: int, now: real, later: real,
                x: Id, m: Retry.Method)
    requires Inv(p, s) && !m.Unimportable? && !p.unique(x) && OnCourse(p, s, x, m) && w !in s.workers
    requires x in PopQueued(s.db, queue, count, now, later).1
    ensures OnCourse(p, Popping(s, w, queue, count, now, later), x, m)
  {
    var t := Popping(s, w, queue, count, now, later);
    var third := Some(Third(Key(Scheduled, queue), later));
    PopOneId(s.db, Key(Queued, queue), Key(Active, queue), count, Unbounded, now, third, x);
    PopKeepsCounts(s.db, queue, count, now, later, x);
    assert x in s.db.Z(Key(Queued, queue));
    assert IdOk(p, s.db, s.ledger, x) && p.home(x) == queue;
    OnePlace(p, s, x, Queued);
    NotActiveIsUnheld(p, s, x);
    PushedAlone(p, s.db, x, Queued, Active, count, Unbounded, now, third);
    HeldOnCourse(p, t, x, m, w);
  }

  lemma PopKeepsCounts(db: Db, queue: Queue, count: int, now: real, later: real, x: Id)
    ensures PopQueued(db, queue, count, now, later).0.Count(x) == db.Count(x)
    ensures QueueDue(db, queue, count, now).0.Count(x) == db.Count(x)
  {
    PopPushSets(db, Key(Queued, queue), Key(Active, queue), count, Unbounded, now,
                Some(Third(Key(Scheduled, queue), later)));
    PopPushSets(db, Key(Scheduled, queue), Key(Queued, queue), count, AtMost(now), now, None);
  }

  /** A non-unique id that a pop does not return is not touched by it. */
  lemma UnpoppedIsSame(p: Params, db: Db, queue: Queue, count: int, now: real, later: real, x: Id)
    requires forall j, k :: x in db.Z(j) && x in db.Z(k) ==> j == k
    requires x !in PopQueued(db, queue, count, now, later).1
    ensures var after := PopQueued(db, queue, count, now, later).0;
            && (forall k :: x in after.Z(k) <==> x in db.Z(k))
            && (forall k: Key :: k.state.Scheduled? && x in db.Z(k) ==> after.Z(k)[x] == db.Z(k)[x])
            && after.Count(x) == db.Count(x)
  {
    var third := Some(Third(Key(Scheduled, queue), later));
    var after := PopQueued(db, queue, count, now, later).0;
    var src, dst := Key(Queued, queue), Key(Active, queue);
    PopOneId(db, src, dst, count, Unbounded, now, third, x);
    PopPushSets(db, src, dst, count, Unbounded, now, third);
    PopPushThird(db, src, dst, count, Unbounded, now, Third(Key(Scheduled, queue), later));
    PopKeepsCounts(db, queue, count, now, later, x);
    assert !(x in db.Z(src) && x in db.Z(dst));
  }

  lemma SameScoresUntouched(p: Params, s: Sys, t: Sys, x: Id)
    requires forall k :: x in t.db.Z(k) <==> x in s.db.Z(k)
    requires ScheduledFor(t, p.home(x), x) == ScheduledFor(s, p.home(x), x) && SameBooks(s, t, x)
    requires forall w :: t.Holds(w, x) <==> s.Holds(w, x)
    requires forall w :: w in t.workers && t.Holds(w, x) && s.Holds(w, x) ==>
               t.workers[w].tasks[x] == s.workers[w].tasks[x]
    ensures Untouched(p, s, t, x)
  {
    forall st: State ensures t.db.Has(st, p.home(x), x) == s.db.Has(st, p.home(x), x) {
      assert x in t.db.Z(Key(st, p.home(x))) <==> x in s.db.Z(Key(st, p.home(x)));
    }
  }

  /** A move of `x` by its worker leaves it at `to`, unheld. */
  lemma WorkerMoveResult(p: Params, s: Sys, w: WorkerId, x: Id, r: Record, to: Option<State>, when: real, mode: Mode)
    requires Inv(p, s) && !p.unique(x) && s.Holds(w, x) && Fits(p, x, r)
    requires MoveMode(mode) && to != Some(Active)
    ensures var t := WorkerMove(s, w, x, r.id, to, r.unique, when, mode);
            && Unheld(t, x) && x in t.ledger.delayed
            && (to.Some? ==> OnlyAt(p, t.db, x, to.value)) && (to.None? ==> Nowhere(p, t, x))
            && (to == Some(Scheduled) ==> ScheduledFor(t, p.home(x), x) == when)
            && (to.Some? ==> t.db.Count(x) == s.db.Count(x))
            && t.clock == s.clock && t.ledger.starts == s.ledger.starts
            && t.ledger.firstFinish == s.ledger.firstFinish
  {
    assert TaskOk(p, s.db, s.workers[w], x);
    OnePlace(p, s, x, Active);
    MovedAlone(p, s.db, x, to, when, mode);
    var t := WorkerMove(s, w, x, r.id, to, r.unique, when, mode);
    forall v | v in t.workers ensures !t.Holds(v, x) {}
  }

  /** An id that is active and nowhere else goes to `to` and nowhere else. */
  lemma MovedAlone(p: Params, db: Db, x: Id, to: Option<State>, when: real, mode: Mode)
    requires OnlyAt(p, db, x, Active) && MoveMode(mode) && to != Some(Active)
    ensures var r := Move(db, x, p.home(x), Active, to, p.unique(x), when, mode);
            && r.Ok?
            && (forall st: State :: r.value.Has(st, p.home(x), x) <==> to == Some(st))
            && (to == Some(Scheduled) ==> r.value.Z(Key(Scheduled, p.home(x)))[x] == when)
            && (to.Some? ==> r.value.Count(x) == db.Count(x))
  {
    var q := p.home(x);
    MoveMembers(db, x, q, Active, to, p.unique(x), when, mode);
    MoveDeletes(db, x, q, Active, to, p.unique(x), when, mode);
    var after := Move(db, x, q, Active, to, p.unique(x), when, mode).value;
    if to.Some? {
      assert !db.Has(to.value, q, x);
      AddedHasMember(db.Z(Key(to.value, q)), when, x, mode);
    }
    forall st: State ensures after.Has(st, q, x) <==> to == Some(st) {
      assert db.Has(st, q, x) <==> st == Active;
    }
  }

  lemma LockMissOnCourse(p: Params, s: Sys, w: WorkerId, x: Id, when: real, m: Retry.Method)
    requires Inv(p, s) && !m.Unimportable? && !p.unique(x) && OnCourse(p, s, x, m) && Waiting(s, w, x)
    ensures var r := s.workers[w].tasks[x].record;
            OnCourse(p, WorkerMove(s, w, x, r.id, Some(Scheduled), r.unique, when, Min), x, m)
  {
    var r := s.workers[w].tasks[x].record;
    assert TaskOk(p, s.db, s.workers[w], x);
    WorkerMoveResult(p, s, w, x, r, Some(Scheduled), when, Min);
    QueuedOnCourse(p, WorkerMove(s, w, x, r.id, Some(Scheduled), r.unique, when, Min), x, m, Scheduled);
  }

  lemma AdvancedOnCourse(p: Params, s: Sys, t: Sys, w: WorkerId, x: Id, m: Retry.Method)
    requires Inv(p, s) && !m.Unimportable? && !p.unique(x) && s.Holds(w, x)
    requires t.workers.Keys == s.workers.Keys && t.ledger.delayed == s.ledger.delayed
    requires forall v :: v in t.workers ==> t.workers[v].tasks.Keys == s.workers[v].tasks.Keys
    requires forall k :: t.db.Z(k) == s.db.Z(k)
    requires t.Holds(w, x) && ProgressFits(t, x, m, t.workers[w].tasks[x])
    ensures OnCourse(p, t, x, m)
  {
    assert TaskOk(p, s.db, s.workers[w], x);
    OnePlace(p, s, x, Active);
    forall st: State ensures t.db.Has(st, p.home(x), x) <==> st == Active {
      assert s.db.Has(st, p.home(x), x) <==> st == Active;
    }
    HeldOnCourse(p, t, x, m, w);
  }

  lemma BeginOnCourse(p: Params, s: Sys, w: WorkerId, x: Id, now: real, m: Retry.Method)
    requires Inv(p, s) && !m.Unimportable? && !p.unique(x) && OnCourse(p, s, x, m) && Waiting(s, w, x)
    ensures OnCourse(p, Beginning(p, s, w, x, None, now), x, m)
  {
    AdvancedOnCourse(p, s, Beginning(p, s, w, x, None, now), w, x, m);
  }

  lemma FailingOnCourse(p: Params, s: Sys, w: WorkerId, x: Id, e: Execution, m: Retry.Method)
    requires Inv(p, s) && !m.Unimportable? && !p.unique(x) && OnCourse(p, s, x, m) && Working(s, w, x)
    requires s.workers[w].tasks[x].failures == 0
    ensures OnCourse(p, Failing(s, w, x, e), x, m)
  {
    var t := Failing(s, w, x, e);
    assert t.db.Count(x) == s.db.Count(x) + 1;
    AdvancedOnCourse(p, s, t, w, x, m);
  }

  /** After failure number c the task waits for the c-th delay, or it is finished. */
  lemma FinishDecided(p: Params, s: Sys, w: WorkerId, x: Id, decision: Decision, now: real,
                      m: Retry.Method, default: Retry.Method)
    requires !m.Unimportable? && Working(s, w, x) && s.db.Count(x) >= 1
    requires FailsRetriably(p, s, Finish(w, x, decision, now), x, m, default)
    ensures var wait := Retry.Wait(m, s.db.Count(x));
            if wait.Some? then decision == MoveTo(Scheduled, now + wait.value)
            else decision == MoveTo(Error, now) || decision == Done
  {}

  lemma FinishingOnCourse(p: Params, s: Sys, w: WorkerId, x: Id, decision: Decision, now: real, m: Retry.Method)
    requires Inv(p, s) && !m.Unimportable? && !p.unique(x) && Working(s, w, x)
    requires s.workers[w].tasks[x].startedAt <= now
    requires ProgressFits(s, x, m, s.workers[w].tasks[x]) && s.workers[w].tasks[x].failures == 1
    requires var wait := Retry.Wait(m, s.db.Count(x));
             if wait.Some? then decision == MoveTo(Scheduled, now + wait.value)
             else decision == MoveTo(Error, now) || decision == Done
    ensures OnCourse(p, Finishing(s, w, x, decision, now), x, m)
  {
    var s1 := WithFirstFinish(s, x, now);
    WithFirstFinishKeeps(p, s, x, now);
    FinishingIsMove(s, w, x, decision, now);
    if Retry.Wait(m, s.db.Count(x)).Some? {
      NextDelay(s, s1, x, m, now, s.workers[w].tasks[x].startedAt);
      RetriedOnCourse(p, s1, w, x, decision.when, m);
    } else {
      EndedOnCourse(p, s1, w, x, if decision.MoveTo? then Some(Error) else None, now, m);
    }
  }

  function WithFirstFinish(s: Sys, x: Id, now: real): Sys {
    var first := if x in s.ledger.firstFinish then s.ledger.firstFinish else s.ledger.firstFinish[x := now];
    s.(ledger := s.ledger.(firstFinish := first))
  }

  lemma WithFirstFinishKeeps(p: Params, s: Sys, x: Id, now: real)
    requires Inv(p, s)
    ensures Inv(p, WithFirstFinish(s, x, now))
  {
    LogIsNoMatter(p, s.db, s.ledger, s.ledger.log, s.ledger.starts, WithFirstFinish(s, x, now).ledger.firstFinish);
  }

  lemma FinishingIsMove(s: Sys, w: WorkerId, x: Id, decision: Decision, now: real)
    requires Working(s, w, x)
    requires decision.MoveTo? ==> decision.state.Scheduled? || decision.state.Error?
    ensures var r := s.workers[w].tasks[x].record;
            Finishing(s, w, x, decision, now)
            == if decision.Done? then WorkerMove(WithFirstFinish(s, x, now), w, x, r.id, None, r.unique, now, Plain)
               else WorkerMove(WithFirstFinish(s, x, now), w, x, r.id, Some(decision.state), r.unique,
                               decision.when, Plain)
  {}

  lemma RetriedOnCourse(p: Params, s: Sys, w: WorkerId, x: Id, when: real, m: Retry.Method)
    requires Inv(p, s) && !m.Unimportable? && !p.unique(x) && Working(s, w, x)
    requires Between(s, x, m, when)
    ensures var r := s.workers[w].tasks[x].record;
            OnCourse(p, WorkerMove(s, w, x, r.id, Some(Scheduled), r.unique, when, Plain), x, m)
  {
    var r := s.workers[w].tasks[x].record;
    assert TaskOk(p, s.db, s.workers[w], x);
    WorkerMoveResult(p, s, w, x, r, Some(Scheduled), when, Plain);
    QueuedOnCourse(p, WorkerMove(s, w, x, r.id, Some(Scheduled), r.unique, when, Plain), x, m, Scheduled);
  }

  lemma EndedOnCourse(p: Params, s: Sys, w: WorkerId, x: Id, to: Option<State>, now: real, m: Retry.Method)
    requires Inv(p, s) && !m.Unimportable? && !p.unique(x) && Working(s, w, x)
    requires to == Some(Error) || to == None
    requires Starts(s, x) == Retry.MaxRuns(m)
    ensures var r := s.workers[w].tasks[x].record;
            OnCourse(p, WorkerMove(s, w, x, r.id, to, r.unique, now, Plain), x, m)
  {
    var r := s.workers[w].tasks[x].record;
    assert TaskOk(p, s.db, s.workers[w], x);
    WorkerMoveResult(p, s, w, x, r, to, now, Plain);
    FinishedOnCourse(p, WorkerMove(s, w, x, r.id, to, r.unique, now, Plain), x, m);
  }

  lemma NextDelay(s: Sys, t: Sys, x: Id, m: Retry.Method, now: real, startedAt: real)
    requires !m.Unimportable? && s.db.Count(x) >= 1 && startedAt <= now
    requires LateEnough(s, x, m, s.db.Count(x) - 1, startedAt) && Retry.Wait(m, s.db.Count(x)).Some?
    requires t.ledger.firstFinish == if x in s.ledger.firstFinish then s.ledger.firstFinish
                                     else s.ledger.firstFinish[x := now]
    ensures LateEnough(t, x, m, s.db.Count(x), now + Retry.Wait(m, s.db.Count(x)).value)
  {
    var c := s.db.Count(x);
    assert Retry.TotalWait(m, c) == Retry.TotalWait(m, c - 1) + Retry.WaitLength(m, c);
    if c == 1 { assert Retry.TotalWait(m, 0) == 0.0; }
  }

  lemma DueOnCourse(p: Params, s: Sys, queue: Queue, count: int, now: real, x: Id, m: Retry.Method)
    requires Inv(p, s) && !m.Unimportable? && !p.unique(x) && OnCourse(p, s, x, m) && Reading(s, now)
    ensures OnCourse(p, s.(db := QueueDue(s.db, queue, count, now).0), x, m)
  {
    var t := s.(db := QueueDue(s.db, queue, count, now).0);
    if x in s.db.Z(Key(Scheduled, queue)) && x !in t.db.Z(Key(Scheduled, queue)) {
      DueMoves(p, s, queue, count, now, x, m);
    } else {
      NotDueIsSame(s.db, queue, count, now, x);
      SameScoresUntouched(p, s, t, x);
      UntouchedStaysOnCourse(p, s, t, x, m);
    }
  }

  lemma DueMoves(p: Params, s: Sys, queue: Queue, count: int, now: real, x: Id, m: Retry.Method)
    requires Inv(p, s) && !m.Unimportable? && !p.unique(x) && OnCourse(p, s, x, m) && Reading(s, now)
    requires x in s.db.Z(Key(Scheduled, queue)) && x !in QueueDue(s.db, queue, count, now).0.Z(Key(Scheduled, queue))
    ensures OnCourse(p, s.(db := QueueDue(s.db, queue, count, now).0), x, m)
  {
    var t := s.(db := QueueDue(s.db, queue, count, now).0);
    PopKeepsCounts(s.db, queue, count, now, now, x);
    DueNow(s.db, queue, count, now, x);
    assert IdOk(p, s.db, s.ledger, x) && p.home(x) == queue;
    OnePlace(p, s, x, Scheduled);
    NotActiveIsUnheld(p, s, x);
    PushedAlone(p, s.db, x, Scheduled, Queued, count, AtMost(now), now, None);
    QueuedOnCourse(p, t, x, m, Queued);
  }

  /** An id that is popped from the one set it is in is in the destination only. */
  lemma PushedAlone(p: Params, db: Db, x: Id, from: State, to: State, count: int, bound: Bound, now: real,
                    third: Option<Third>)
    requires OnlyAt(p, db, x, from)
    requires var q := p.home(x);
             Distinct(Key(from, q), Key(to, q), third) && (third.Some? ==> third.value.key.queue == q)
             && x !in PopPush(db, Key(from, q), Key(to, q), count, bound, now, third).0.Z(Key(from, q))
    ensures var q := p.home(x);
            OnlyAt(p, PopPush(db, Key(from, q), Key(to, q), count, bound, now, third).0, x, to)
  {
    var q := p.home(x);
    PopOneId(db, Key(from, q), Key(to, q), count, bound, now, third, x);
    PopPushSets(db, Key(from, q), Key(to, q), count, bound, now, third);
    var after := PopPush(db, Key(from, q), Key(to, q), count, bound, now, third).0;
    assert db.Has(from, q, x) && !db.Has(to, q, x);
    forall st: State ensures after.Has(st, q, x) <==> st == to {
      assert db.Has(st, q, x) <==> st == from;
      var k := Key(st, q);
      if st != from && st != to && (third.Some? ==> k != third.value.key) { assert after.Z(k) == db.Z(k); }
    }
  }

  lemma DueNow(db: Db, queue: Queue, count: int, now: real, x: Id)
    requires x in db.Z(Key(Scheduled, queue)) && x !in QueueDue(db, queue, count, now).0.Z(Key(Scheduled, queue))
    ensures db.Z(Key(Scheduled, queue))[x] <= now
  {
    PopPushSets(db, Key(Scheduled, queue), Key(Queued, queue), count, AtMost(now), now, None);
    RangeIsRanks(db.Z(Key(Scheduled, queue)), AtMost(now), count);
  }

  lemma NotDueIsSame(db: Db, queue: Queue, count: int, now: real, x: Id)
    requires var k := Key(Scheduled, queue); x in db.Z(k) ==> x in QueueDue(db, queue, count, now).0.Z(k)
    ensures var after := QueueDue(db, queue, count, now).0;
            && (forall k :: x in after.Z(k) <==> x in db.Z(k))
            && (forall k: Key :: k.state.Scheduled? && x in db.Z(k) ==> after.Z(k)[x] == db.Z(k)[x])
            && after.Count(x) == db.Count(x)
  {
    PopOneId(db, Key(Scheduled, queue), Key(Queued, queue), count, AtMost(now), now, None, x);
    PopPushSets(db, Key(Scheduled, queue), Key(Queued, queue), count, AtMost(now), now, None);
    PopKeepsCounts(db, queue, count, now, now, x);
  }

  // ---- all steps -------------------------------------------------------------------------------

  lemma LoadOnCourse(p: Params, s: Sys, w: WorkerId, x: Id, m: Retry.Method)
    requires Inv(p, s) && !m.Unimportable? && OnCourse(p, s, x, m) && Enabled(p, s, Load(w))
    ensures OnCourse(p, Loading(s, w), x, m)
  {
    var t := Loading(s, w);
    assert SameId(s.db, t.db, x);
    forall v ensures t.Holds(v, x) <==> s.Holds(v, x) {}
    SameIdUntouched(p, s, t, x);
    UntouchedStaysOnCourse(p, s, t, x, m);
  }

  lemma OtherProgressOnCourse(p: Params, s: Sys, w: WorkerId, id: Id, progress: Progress, x: Id, m: Retry.Method)
    requires !m.Unimportable? && OnCourse(p, s, x, m) && s.Holds(w, id) && id != x
    ensures OnCourse(p, Advanced(s, w, id, progress), x, m)
  {
    var t := Advanced(s, w, id, progress);
    forall v ensures t.Holds(v, x) <==> s.Holds(v, x) {}
    SameIdUntouched(p, s, t, x);
    UntouchedStaysOnCourse(p, s, t, x, m);
  }

  lemma BooksOnCourse(p: Params, s: Sys, t: Sys, x: Id, m: Retry.Method)
    requires !m.Unimportable? && OnCourse(p, s, x, m) && t.workers == s.workers && SameBooks(s, t, x)
    requires SameId(s.db, t.db, x)
    ensures OnCourse(p, t, x, m)
  {
    SameIdUntouched(p, s, t, x);
    UntouchedStaysOnCourse(p, s, t, x, m);
  }

  lemma OtherBeginOnCourse(p: Params, s: Sys, w: WorkerId, id: Id, next: Option<real>, now: real,
                           x: Id, m: Retry.Method)
    requires Inv(p, s) && !m.Unimportable? && OnCourse(p, s, x, m) && Waiting(s, w, id) && id != x
    ensures OnCourse(p, Beginning(p, s, w, id, next, now), x, m)
  {
    var r := s.workers[w].tasks[id].record;
    var s1 := if next.Some? then Delayed(p, s, r.(id := id), next, now) else s;
    if next.Some? {
      DelayUntouched(p, s, r.(id := id), next, now, x);
      UntouchedStaysOnCourse(p, s, s1, x, m);
    }
    StartedOnCourse(p, s1, w, id, Starts(s, id) + 1, Running(r, s.clock, 0), x, m);
  }

  lemma StartedOnCourse(p: Params, s: Sys, w: WorkerId, id: Id, starts: nat, progress: Progress, x: Id, m: Retry.Method)
    requires !m.Unimportable? && OnCourse(p, s, x, m) && s.Holds(w, id) && id != x
    ensures var s2 := s.(ledger := s.ledger.(starts := s.ledger.starts[id := starts]));
            OnCourse(p, Advanced(s2, w, id, progress), x, m)
  {
    var s2 := s.(ledger := s.ledger.(starts := s.ledger.starts[id := starts]));
    BooksOnCourse(p, s, s2, x, m);
    OtherProgressOnCourse(p, s2, w, id, progress, x, m);
  }

  lemma RecordedOnCourse(p: Params, s: Sys, id: Id, e: Execution, maxStored: nat, log: map<Id, seq<Execution>>,
                         x: Id, m: Retry.Method)
    requires !m.Unimportable? && OnCourse(p, s, x, m) && id != x
    ensures OnCourse(p, s.(db := Recorded(s.db, id, e, maxStored), ledger := s.ledger.(log := log)), x, m)
  {
    var s1 := s.(db := Recorded(s.db, id, e, maxStored), ledger := s.ledger.(log := log));
    forall k ensures s1.db.Z(k) == s.db.Z(k) {}
    BooksOnCourse(p, s, s1, x, m);
  }

  lemma OtherFailureOnCourse(p: Params, s: Sys, w: WorkerId, id: Id, e: Execution, x: Id, m: Retry.Method)
    requires !m.Unimportable? && OnCourse(p, s, x, m) && Working(s, w, id) && id != x
    ensures OnCourse(p, Failing(s, w, id, e), x, m)
  {
    var progress := s.workers[w].tasks[id];
    var log := s.ledger.log[id := Logged(s.ledger, id) + [e]];
    RecordedOnCourse(p, s, id, e, progress.record.maxStored, log, x, m);
    var s1 := s.(db := Recorded(s.db, id, e, progress.record.maxStored), ledger := s.ledger.(log := log));
    var next := progress.(failures := progress.failures + 1);
    OtherProgressOnCourse(p, s1, w, id, next, x, m);
    assert Failing(s, w, id, e) == Advanced(s1, w, id, next);
  }

  lemma OtherFinishOnCourse(p: Params, s: Sys, w: WorkerId, id: Id, decision: Decision, now: real,
                            x: Id, m: Retry.Method)
    requires Inv(p, s) && !m.Unimportable? && OnCourse(p, s, x, m) && Working(s, w, id) && id != x
    requires decision.MoveTo? ==> decision.state.Scheduled? || decision.state.Error?
    ensures OnCourse(p, Finishing(s, w, id, decision, now), x, m)
  {
    var r := s.workers[w].tasks[id].record;
    var s1 := WithFirstFinish(s, id, now);
    assert TaskOk(p, s.db, s.workers[w], id);
    WithFirstFinishKeeps(p, s, id, now);
    FinishingIsMove(s, w, id, decision, now);
    BooksOnCourse(p, s, s1, x, m);
    var to := if decision.MoveTo? then Some(decision.state) else None;
    var when := if decision.MoveTo? then decision.when else now;
    WorkerMoveUntouched(p, s1, w, id, r, to, when, Plain, x);
    UntouchedStaysOnCourse(p, s1, WorkerMove(s1, w, id, r.id, to, r.unique, when, Plain), x, m);
  }

  lemma UpdateOnCourse(p: Params, s: Sys, id: Id, when: real, x: Id, m: Retry.Method)
    requires !m.Unimportable? && OnCourse(p, s, x, m) && id != x
    ensures OnCourse(p, Updating(p, s, id, when), x, m)
  {
    OtherRescheduled(s.db, p.home(id), id, when, x);
    BooksOnCourse(p, s, Updating(p, s, id, when), x, m);
  }

  lemma OtherRescheduled(db: Db, queue: Queue, id: Id, when: real, x: Id)
    requires id != x
    ensures var r := Reschedule(db, queue, id, when);
            !r.NotScheduled? ==> SameId(db, r.db, x) && r.db.Count(x) == db.Count(x)
  {}

  lemma BeatOnCourse(p: Params, s: Sys, w: WorkerId, ids: set<Id>, now: real, x: Id, m: Retry.Method)
    requires Inv(p, s) && !m.Unimportable? && OnCourse(p, s, x, m)
    requires w in s.workers && ids <= s.workers[w].tasks.Keys
    ensures OnCourse(p, s.(db := Heartbeat(s.db, s.workers[w].queue, ids, now)), x, m)
  {
    var q := s.workers[w].queue;
    var t := s.(db := Heartbeat(s.db, q, ids, now));
    forall y | y in ids ensures y in s.db.Z(Key(Active, q)) {
      assert TaskOk(p, s.db, s.workers[w], y);
    }
    HeartbeatKeepsIndex(s.db, q, ids, now);
    forall k ensures x in t.db.Z(k) <==> x in s.db.Z(k) {
      assert x in t.db.Z(k).Keys <==> x in s.db.Z(k).Keys;
    }
    SameScoresUntouched(p, s, t, x);
    UntouchedStaysOnCourse(p, s, t, x, m);
  }

  /** With no dead holder the expiry pass cannot be at `x`. */
  lemma ExpiringOnCourse(p: Params, s: Sys, retriable: bool, x: Id, m: Retry.Method)
    requires Inv(p, s) && !m.Unimportable? && OnCourse(p, s, x, m) && Pending(s) && s.pass.value.probe.Found?
    ensures OnCourse(p, Expiring(s, retriable), x, m)
  {
    var (q, y) := s.pass.value.todo[0];
    assert Abandoned(p, s.db, s.workers, q, y);
    if s.Held(x) {
      var w :| w in s.workers && s.Holds(w, x);
      assert x in s.workers[w].tasks;
    }
    assert y != x;
    ExpiringOther(p, s, retriable, x, m);
  }

  lemma ExpiringOther(p: Params, s: Sys, retriable: bool, x: Id, m: Retry.Method)
    requires !m.Unimportable? && OnCourse(p, s, x, m) && Pending(s) && s.pass.value.probe.Found?
    requires s.pass.value.probe.record.id != x
    ensures OnCourse(p, Expiring(s, retriable), x, m)
  {
    ExpiringBooks(s, retriable, x);
    BooksOnCourse(p, s, Expiring(s, retriable), x, m);
  }

  lemma ExpiringBooks(s: Sys, retriable: bool, x: Id)
    requires Pending(s) && s.pass.value.probe.Found? && s.pass.value.probe.record.id != x
    ensures var t := Expiring(s, retriable);
            t.workers == s.workers && SameBooks(s, t, x) && SameId(s.db, t.db, x)
  {
    var r, q := s.pass.value.probe.record, s.pass.value.todo[0].0;
    if retriable {
      OtherMoveUntouched(s.db, r.id, q, Active, Some(Queued), r.unique, s.pass.value.now, Nx, x);
    } else {
      OtherMoveUntouched(s.db, r.id, q, Active, Some(Error), r.unique, s.pass.value.now, Plain, x);
    }
  }

  lemma LeavingOnCourse(p: Params, s: Sys, w: WorkerId, x: Id, m: Retry.Method)
    requires !m.Unimportable? && OnCourse(p, s, x, m) && !s.Holds(w, x)
    ensures OnCourse(p, s.(workers := s.workers - {w}), x, m)
  {
    var t := s.(workers := s.workers - {w});
    forall v ensures t.Holds(v, x) <==> s.Holds(v, x) {}
    SameIdUntouched(p, s, t, x);
    UntouchedStaysOnCourse(p, s, t, x, m);
  }

  predicate IsWorkerStep(step: Step) {
    step.Pop? || step.Load? || step.Beat? || step.Release? || step.Die?
  }

  lemma WorkerStepOnCourse(p: Params, s: Sys, step: Step, x: Id, m: Retry.Method, default: Retry.Method)
    requires Inv(p, s) && Enabled(p, s, step) && !m.Unimportable? && !p.unique(x) && IsWorkerStep(step)
    requires OnCourse(p, s, x, m) && FailsRetriably(p, s, step, x, m, default)
    ensures OnCourse(p, Apply(p, s, step), x, m)
  {
    match step
    case Pop(w, queue, count, now, later) => PopOnCourse(p, s, w, queue, count, now, later, x, m);
    case Load(w) => LoadOnCourse(p, s, w, x, m);
    case Beat(w, ids, now) => BeatOnCourse(p, s, w, ids, now, x, m);
    case Release(w) => LeavingOnCourse(p, s, w, x, m);
    case Die(w) => LeavingOnCourse(p, s, w, x, m);
    case _ =>
  }

  predicate IsTaskStep(step: Step) {
    step.LockMiss? || step.Begin? || step.StoreFailure? || step.Finish?
  }

  /** The steps of a worker with one of its tasks. */
  lemma TaskStepOnCourse(p: Params, s: Sys, step: Step, x: Id, m: Retry.Method, default: Retry.Method)
    requires Inv(p, s) && Enabled(p, s, step) && !m.Unimportable? && !p.unique(x) && IsTaskStep(step)
    requires OnCourse(p, s, x, m) && FailsRetriably(p, s, step, x, m, default)
    ensures OnCourse(p, Apply(p, s, step), x, m)
  {
    match step
    case LockMiss(w, id, when) =>
      if id == x { LockMissOnCourse(p, s, w, x, when, m); } else { OtherLockMiss(p, s, w, id, when, x, m); }
    case Begin(w, id, next, now) =>
      if id == x { BeginOnCourse(p, s, w, x, now, m); } else { OtherBeginOnCourse(p, s, w, id, next, now, x, m); }
    case StoreFailure(w, id, e) =>
      if id == x { FailingOnCourse(p, s, w, x, e, m); } else { OtherFailureOnCourse(p, s, w, id, e, x, m); }
    case Finish(w, id, decision, now) =>
      if id == x {
        assert ProgressFits(s, x, m, s.workers[w].tasks[x]);
        FinishDecided(p, s, w, x, decision, now, m, default);
        FinishingOnCourse(p, s, w, x, decision, now, m);
      } else {
        OtherFinishOnCourse(p, s, w, id, decision, now, x, m);
      }
    case _ =>
  }

  lemma StepOnCourse(p: Params, s: Sys, step: Step, x: Id, m: Retry.Method, default: Retry.Method)
    requires Inv(p, s) && Enabled(p, s, step) && !m.Unimportable? && !p.unique(x)
    requires OnCourse(p, s, x, m) && FailsRetriably(p, s, step, x, m, default)
    ensures OnCourse(p, Apply(p, s, step), x, m)
  {
    CleanUpsAreDisabled(p, s, step);
    if IsWorkerStep(step) {
      WorkerStepOnCourse(p, s, step, x, m, default);
    } else if IsTaskStep(step) {
      TaskStepOnCourse(p, s, step, x, m, default);
    } else {
      OtherStepOnCourse(p, s, step, x, m, default);
    }
  }

  lemma OtherStepOnCourse(p: Params, s: Sys, step: Step, x: Id, m: Retry.Method, default: Retry.Method)
    requires Inv(p, s) && Enabled(p, s, step) && !m.Unimportable? && !p.unique(x) && !IsWorkerStep(step)
    requires !IsTaskStep(step) && !step.CleanUp? && !step.CheckRecord? && !step.CleanUpExpired?
    requires OnCourse(p, s, x, m) && FailsRetriably(p, s, step, x, m, default)
    ensures OnCourse(p, Apply(p, s, step), x, m)
  {
    match step
    case Tick(clock) => BooksOnCourse(p, s, s.(clock := clock), x, m);
    case DelayTask(r, due, now) =>
      if r.id == x {
        FirstDelayOnCourse(p, s, r, due, now, m);
      } else {
        DelayUntouched(p, s, r, due, now, x);
        UntouchedStaysOnCourse(p, s, Delayed(p, s, r, due, now), x, m);
      }
    case RetryTask(id, now) => OtherUserMove(p, s, id, Error, Some(Queued), now, x, m);
    case CancelTask(id) => OtherUserMove(p, s, id, Scheduled, None, s.clock, x, m);
    case DeleteTask(id) => OtherUserMove(p, s, id, Error, None, s.clock, x, m);
    case UpdateScheduled(id, when) => UpdateOnCourse(p, s, id, when, x, m);
    case QueueScheduled(queue, count, now) => DueOnCourse(p, s, queue, count, now, x, m);
    case MoveExpired(retriable) => ExpiringOnCourse(p, s, retriable, x, m);
    case ListExpired(queues, batch, now) => BooksOnCourse(p, s, Listing(p, s, queues, batch, now), x, m);
    case ProbeExpired => BooksOnCourse(p, s, Probing(s), x, m);
    case EndPass => BooksOnCourse(p, s, s.(pass := None), x, m);
    case _ =>
  }

  lemma OtherUserMove(p: Params, s: Sys, id: Id, from: State, to: Option<State>, when: real, x: Id, m: Retry.Method)
    requires !m.Unimportable? && OnCourse(p, s, x, m) && id != x && to != Some(from)
    ensures OnCourse(p, UserMove(p, s, id, from, to, when), x, m)
  {
    UserMoveUntouched(p, s, id, from, to, when, x);
    UntouchedStaysOnCourse(p, s, UserMove(p, s, id, from, to, when), x, m);
  }

  lemma OtherLockMiss(p: Params, s: Sys, w: WorkerId, id: Id, when: real, x: Id, m: Retry.Method)
    requires Inv(p, s) && !m.Unimportable? && OnCourse(p, s, x, m) && Waiting(s, w, id) && id != x
    ensures var r := s.workers[w].tasks[id].record;
            OnCourse(p, WorkerMove(s, w, id, r.id, Some(Scheduled), r.unique, when, Min), x, m)
  {
    var r := s.workers[w].tasks[id].record;
    assert TaskOk(p, s.db, s.workers[w], id);
    WorkerMoveUntouched(p, s, w, id, r, Some(Scheduled), when, Min, x);
    UntouchedStaysOnCourse(p, s, WorkerMove(s, w, id, r.id, Some(Scheduled), r.unique, when, Min), x, m);
  }

  // ---- runs ------------------------------------------------------------------------------------

  ghost predicate AlwaysFails(p: Params, run: Run, n: nat, x: Id, m: Retry.Method, default: Retry.Method)
    requires n < |run.states| && |run.states| == |run.steps| + 1
  {
    forall i :: 0 <= i < n ==> FailsRetriably(p, run.states[i], run.steps[i], x, m, default)
  }

  lemma {:induction false} RunOnCourse(p: Params, run: Run, n: nat, x: Id, m: Retry.Method, default: Retry.Method)
    requires IsRun(p, run) && n < |run.states| && TimelyUntil(p, run, n)
    requires !m.Unimportable? && !p.unique(x) && AlwaysFails(p, run, n, x, m, default)
    ensures OnCourse(p, run.states[n], x, m)
  {
    if n == 0 {
      assert Unheld(Start, x);
    } else {
      RunOnCourse(p, run, n - 1, x, m, default);
      RunsAreSound(p, run, n - 1);
      assert StepAt(p, run, n - 1);
      StepOnCourse(p, run.states[n - 1], run.steps[n - 1], x, m, default);
    }
  }

  /** A task that always fails retriably is never run more than max_retries + 1 times, and when it
  has come to rest - in the error set, or removed because its last failure was not to be logged -
  it was run exactly that often. */
  lemma RunsExactlyMaxRetriesPlusOne(p: Params, run: Run, n: nat, x: Id, m: Retry.Method, default: Retry.Method)
    requires IsRun(p, run) && n < |run.states| && TimelyUntil(p, run, n)
    requires !m.Unimportable? && !p.unique(x) && AlwaysFails(p, run, n, x, m, default)
    ensures Starts(run.states[n], x) <= Retry.MaxRuns(m)
    ensures run.states[n].db.Has(Error, p.home(x), x) ==> Starts(run.states[n], x) == Retry.MaxRuns(m)
    ensures x in run.states[n].ledger.delayed && Nowhere(p, run.states[n], x) ==>
              Starts(run.states[n], x) == Retry.MaxRuns(m)
  {
    var s := run.states[n];
    RunOnCourse(p, run, n, x, m, default);
    if x in s.ledger.delayed && !Nowhere(p, s, x) {
      var st: State :| s.db.Has(st, p.home(x), x);
      if st.Active? {
        var w :| w in s.workers && s.Holds(w, x);
        assert ProgressFits(s, x, m, s.workers[w].tasks[x]);
      }
    }
  }

  /** Spacing: the run that follows c failures starts no earlier than the first failure plus the
  closed-form sum of the first c waits. */
  lemma RunsAreSpaced(p: Params, run: Run, n: nat, w: WorkerId, x: Id, next: Option<real>, now: real,
                      m: Retry.Method, default: Retry.Method)
    requires IsRun(p, run) && n < |run.steps| && TimelyUntil(p, run, n)
    requires !m.Unimportable? && !p.unique(x) && AlwaysFails(p, run, n, x, m, default)
    requires run.steps[n] == Begin(w, x, next, now)
    ensures var s := run.states[n];
            Starts(s, x) > 0 ==>
              x in s.ledger.firstFinish
              && s.clock >= s.ledger.firstFinish[x] + Retry.ClosedTotal(m, Starts(s, x))
  {
    Retry.TotalIsClosed(m, Starts(run.states[n], x));
    RunOnCourse(p, run, n, x, m, default);
    assert StepAt(p, run, n);
    assert ProgressFits(run.states[n], x, m, run.states[n].workers[w].tasks[x]);
  }
}
