/** Every step keeps the protocol invariant. */
module Steps {
  import opened SortedSets
  import opened Wrappers
  import opened TaskDb
  import opened ScriptLaws
  import opened Protocol
  import opened Invariants
  import opened ExpiryLaws

  // ---- users -----------------------------------------------------------------------------

  lemma DelayKeepsIds(p: Params, s: Sys, r: Record, due: Option<real>, now: real)
    requires IdsOk(p, s.db, s.ledger) && Fits(p, r.id, r)
    requires !p.unique(r.id) ==> r.id !in s.ledger.delayed
    ensures var after := Delayed(p, s, r, due, now); IdsOk(p, after.db, after.ledger)
  {
    var after := Delayed(p, s, r, due, now);
    var (state, score) := DelayTarget(due, now);
    var stored := r.(scheduledAt := score);
    DelayMembers(s.db, p.home(r.id), stored, state, score);
    AddedHasMember(s.db.Z(Key(state, p.home(r.id))), score, r.id, Nx);
    forall x ensures IdOk(p, after.db, after.ledger, x) {
      assert IdOk(p, s.db, s.ledger, x);
      if x == r.id {
        DelayKeepsId(p, s, r, due, now);
      } else {
        assert SameId(s.db, after.db, x);
        SameIdOk(p, s.db, after.db, s.ledger, after.ledger, x);
      }
    }
  }

  lemma DelayKeepsId(p: Params, s: Sys, r: Record, due: Option<real>, now: real)
    requires IdOk(p, s.db, s.ledger, r.id) && Fits(p, r.id, r)
    requires !p.unique(r.id) ==> r.id !in s.ledger.delayed
    ensures var after := Delayed(p, s, r, due, now); IdOk(p, after.db, after.ledger, r.id)
  {
    var after := Delayed(p, s, r, due, now);
    var (state, score) := DelayTarget(due, now);
    DelayMembers(s.db, p.home(r.id), r.(scheduledAt := score), state, score);
    AddedHasMember(s.db.Z(Key(state, p.home(r.id))), score, r.id, Nx);
    assert Current(p, after.db, after.ledger, r.id);
  }

  lemma DelayKeepsInv(p: Params, s: Sys, r: Record, due: Option<real>, now: real)
    requires Inv(p, s) && Fits(p, r.id, r)
    requires !p.unique(r.id) ==> r.id !in s.ledger.delayed
    ensures Inv(p, Delayed(p, s, r, due, now))
  {
    var after := Delayed(p, s, r, due, now);
    var (state, score) := DelayTarget(due, now);
    var stored := r.(scheduledAt := score);
    DelayMembers(s.db, p.home(r.id), stored, state, score);
    DelayKeepsIndex(s.db, p.home(r.id), stored, state, score);
    DelayKeepsIds(p, s, r, due, now);
    ActiveFrame(p, s.db, after.db, s.workers, s.pass);
  }

  lemma UserMoveKeepsInv(p: Params, s: Sys, id: Id, from: State, to: Option<State>, when: real)
    requires Inv(p, s) && !from.Active? && to != Some(from) && to != Some(Active)
    ensures Inv(p, UserMove(p, s, id, from, to, when))
  {
    if s.db.Has(from, p.home(id), id) {
      var q := p.home(id);
      var db := Move(s.db, id, q, from, to, p.unique(id), when, Plain).value;
      MoveMembers(s.db, id, q, from, to, p.unique(id), when, Plain);
      MoveKeepsIndex(s.db, id, q, from, to, p.unique(id), when, Plain);
      MoveKeepsIds(p, s.db, s.ledger, id, from, to, when, Plain);
      LogIsNoMatter(p, db, s.ledger, Pruned(s.ledger, db, id).log, s.ledger.starts, s.ledger.firstFinish);
      ActiveFrame(p, s.db, db, s.workers, s.pass);
    }
  }

  lemma UpdatingKeepsInv(p: Params, s: Sys, id: Id, when: real)
    requires Inv(p, s)
    ensures Inv(p, Updating(p, s, id, when))
    ensures !Reschedule(s.db, p.home(id), id, when).NoRecord?
  {
    var k := Key(Scheduled, p.home(id));
    if id in s.db.Z(k) {
      assert IdOk(p, s.db, s.ledger, id);
      var after := Updating(p, s, id, when).db;
      forall j ensures after.Z(j).Keys == s.db.Z(j).Keys {}
      forall j ensures j in after.index <==> after.Z(j) != map[] {
        assert after.Z(j) == map[] <==> after.Z(j).Keys == {};
        assert s.db.Z(j) == map[] <==> s.db.Z(j).Keys == {};
      }
      forall x ensures IdOk(p, after, s.ledger, x) {
        assert IdOk(p, s.db, s.ledger, x);
        if x != id { SameIdOk(p, s.db, after, s.ledger, s.ledger, x); }
      }
      ActiveFrame(p, s.db, after, s.workers, s.pass);
    }
  }

  // ---- a worker's batch --------------------------------------------------------------------

  /** The same ids in the same places, with new holders. */
  lemma FewerWorkersOk(p: Params, db: Db, workers: map<WorkerId, Work>, pass: Option<Pass>, gone: set<WorkerId>)
    requires WorkersOk(p, db, workers) && PassOk(p, db, workers, pass)
    ensures WorkersOk(p, db, workers - gone) && PassOk(p, db, workers - gone, pass)
  {
    forall w, x | w in workers - gone && x in (workers - gone)[w].tasks
      ensures TaskOk(p, db, (workers - gone)[w], x)
    {
      assert TaskOk(p, db, workers[w], x);
    }
    if pass.Some? {
      var todo := pass.value.todo;
      forall i | 0 <= i < |todo| ensures Abandoned(p, db, workers - gone, todo[i].0, todo[i].1) {
        assert Abandoned(p, db, workers, todo[i].0, todo[i].1);
      }
    }
  }

  lemma LeavingKeepsInv(p: Params, s: Sys, w: WorkerId)
    requires Inv(p, s)
    ensures Inv(p, s.(workers := s.workers - {w}))
  {
    FewerWorkersOk(p, s.db, s.workers, s.pass, {w});
  }

  /** New progress on a held task. */
  lemma ProgressKeepsInv(p: Params, s: Sys, w: WorkerId, id: Id, progress: Progress)
    requires Inv(p, s) && s.Holds(w, id) && ProgressOk(p, id, progress)
    ensures Inv(p, Advanced(s, w, id, progress))
  {
    var workers := Advanced(s, w, id, progress).workers;
    SameTasksOk(p, s.db, s.workers, workers, s.pass);
  }

  /** Workers that hold the same ids as before, with fitting progress. */
  lemma SameTasksOk(p: Params, db: Db, a: map<WorkerId, Work>, b: map<WorkerId, Work>, pass: Option<Pass>)
    requires WorkersOk(p, db, a) && PassOk(p, db, a, pass)
    requires a.Keys == b.Keys
    requires forall w :: w in b ==> b[w].queue == a[w].queue && b[w].tasks.Keys == a[w].tasks.Keys
    requires forall w, x :: w in b && x in b[w].tasks ==> ProgressOk(p, x, b[w].tasks[x])
    ensures WorkersOk(p, db, b) && PassOk(p, db, b, pass)
  {
    forall w, x | w in b && x in b[w].tasks ensures TaskOk(p, db, b[w], x) {
      assert TaskOk(p, db, a[w], x);
    }
    if pass.Some? {
      var todo := pass.value.todo;
      forall i | 0 <= i < |todo| ensures Abandoned(p, db, b, todo[i].0, todo[i].1) {
        assert Abandoned(p, db, a, todo[i].0, todo[i].1);
      }
    }
  }

  /** A loading worker finds every record: nothing it popped is broken. */
  lemma LoadingKeepsInv(p: Params, s: Sys, w: WorkerId)
    requires Inv(p, s) && w in s.workers
    ensures Inv(p, Loading(s, w))
  {
    var after := Loading(s, w).workers;
    forall v, x | v in after && x in after[v].tasks ensures ProgressOk(p, x, after[v].tasks[x]) {
      assert TaskOk(p, s.db, s.workers[v], x);
      assert IdOk(p, s.db, s.ledger, x);
    }
    SameTasksOk(p, s.db, s.workers, after, s.pass);
  }

  /** A worker's move of a task it holds always finds the task, and keeps the invariant. */
  lemma WorkerMoveKeepsInv(p: Params, s: Sys, w: WorkerId, id: Id, r: Record, to: Option<State>,
                           when: real, mode: Mode)
    requires Inv(p, s) && s.Holds(w, id) && Fits(p, id, r) && MoveMode(mode) && to != Some(Active)
    ensures Inv(p, WorkerMove(s, w, id, r.id, to, r.unique, when, mode))
    ensures Move(s.db, id, p.home(id), Active, to, r.unique, when, mode).Ok?
    ensures w in WorkerMove(s, w, id, r.id, to, r.unique, when, mode).workers
  {
    assert TaskOk(p, s.db, s.workers[w], id);
    MoveOutKeepsIds(p, s, id, to, when, mode);
    var db := Move(s.db, id, p.home(id), Active, to, p.unique(id), when, mode).value;
    DroppedOk(p, s.db, db, s.workers, w, id, s.pass);
  }

  lemma MoveOutKeepsIds(p: Params, s: Sys, id: Id, to: Option<State>, when: real, mode: Mode)
    requires Inv(p, s) && s.db.Has(Active, p.home(id), id) && MoveMode(mode) && to != Some(Active)
    ensures var r := Move(s.db, id, p.home(id), Active, to, p.unique(id), when, mode);
            && r.Ok? && IndexAgrees(r.value) && IdsOk(p, r.value, Pruned(s.ledger, r.value, id))
            && forall q, x :: s.db.Has(Active, q, x) && x != id ==> r.value.Has(Active, q, x)
  {
    var q := p.home(id);
    var db := Move(s.db, id, q, Active, to, p.unique(id), when, mode).value;
    MoveMembers(s.db, id, q, Active, to, p.unique(id), when, mode);
    MoveKeepsIndex(s.db, id, q, Active, to, p.unique(id), when, mode);
    MoveKeepsIds(p, s.db, s.ledger, id, Active, to, when, mode);
    LogIsNoMatter(p, db, s.ledger, Pruned(s.ledger, db, id).log, s.ledger.starts, s.ledger.firstFinish);
  }

  lemma DroppedOk(p: Params, a: Db, b: Db, workers: map<WorkerId, Work>, w: WorkerId, id: Id, pass: Option<Pass>)
    requires WorkersOk(p, a, workers) && PassOk(p, a, workers, pass)
    requires w in workers && id in workers[w].tasks
    requires forall q, x :: a.Has(Active, q, x) && x != id ==> b.Has(Active, q, x)
    ensures var after := workers[w := workers[w].(tasks := workers[w].tasks - {id})];
            WorkersOk(p, b, after) && PassOk(p, b, after, pass)
  {
    var after := workers[w := workers[w].(tasks := workers[w].tasks - {id})];
    forall v, x | v in after && x in after[v].tasks ensures TaskOk(p, b, after[v], x) {
      assert TaskOk(p, a, workers[v], x);
      assert x != id;
    }
    if pass.Some? {
      var todo := pass.value.todo;
      forall i | 0 <= i < |todo| ensures Abandoned(p, b, after, todo[i].0, todo[i].1) {
        assert Abandoned(p, a, workers, todo[i].0, todo[i].1);
      }
    }
  }

  lemma BeginningKeepsInv(p: Params, s: Sys, w: WorkerId, id: Id, next: Option<real>, now: real)
    requires Inv(p, s) && Waiting(s, w, id)
    requires next.Some? ==> p.unique(id)
    ensures Inv(p, Beginning(p, s, w, id, next, now))
  {
    assert TaskOk(p, s.db, s.workers[w], id);
    var r := s.workers[w].tasks[id].record;
    var s1 := if next.Some? then Delayed(p, s, r.(id := id), next, now) else s;
    if next.Some? { DelayKeepsInv(p, s, r.(id := id), next, now); }
    var starts := s1.ledger.starts[id := Starts(s, id) + 1];
    LogIsNoMatter(p, s1.db, s1.ledger, s1.ledger.log, starts, s1.ledger.firstFinish);
    var s2 := s1.(ledger := s1.ledger.(starts := starts));
    assert Inv(p, s2);
    ProgressKeepsInv(p, s2, w, id, Running(r, s.clock, 0));
  }

  lemma BeatKeepsInv(p: Params, s: Sys, w: WorkerId, ids: set<Id>, now: real)
    requires Inv(p, s) && w in s.workers && ids <= s.workers[w].tasks.Keys && now > 0.0
    ensures Inv(p, s.(db := Heartbeat(s.db, s.workers[w].queue, ids, now)))
  {
    var q := s.workers[w].queue;
    var after := Heartbeat(s.db, q, ids, now);
    forall x | x in ids ensures x in s.db.Z(Key(Active, q)) {
      assert TaskOk(p, s.db, s.workers[w], x);
    }
    HeartbeatKeepsIndex(s.db, q, ids, now);
    forall x ensures IdOk(p, after, s.ledger, x) {
      assert IdOk(p, s.db, s.ledger, x);
      assert forall k :: x in after.Z(k) <==> x in s.db.Z(k);
      assert Current(p, s.db, s.ledger, x) == Current(p, after, s.ledger, x);
    }
    ActiveFrame(p, s.db, after, s.workers, s.pass);
  }

  lemma FailingKeepsInv(p: Params, s: Sys, w: WorkerId, id: Id, e: Execution)
    requires Inv(p, s) && Working(s, w, id)
    ensures Inv(p, Failing(s, w, id, e))
  {
    assert TaskOk(p, s.db, s.workers[w], id);
    var progress := s.workers[w].tasks[id];
    var db := Recorded(s.db, id, e, progress.record.maxStored);
    forall k ensures db.Z(k) == s.db.Z(k) {}
    forall x ensures IdOk(p, db, s.ledger, x) {
      SameIdOk(p, s.db, db, s.ledger, s.ledger, x);
    }
    var log := s.ledger.log[id := Logged(s.ledger, id) + [e]];
    LogIsNoMatter(p, db, s.ledger, log, s.ledger.starts, s.ledger.firstFinish);
    ActiveFrame(p, s.db, db, s.workers, s.pass);
    var s1 := s.(db := db, ledger := s.ledger.(log := log));
    assert Inv(p, s1);
    ProgressKeepsInv(p, s1, w, id, progress.(failures := progress.failures + 1));
  }

  lemma FinishingKeepsInv(p: Params, s: Sys, w: WorkerId, id: Id, decision: Decision, now: real)
    requires Inv(p, s) && Working(s, w, id)
    requires decision.MoveTo? ==> decision.state.Scheduled? || decision.state.Error?
    ensures Inv(p, Finishing(s, w, id, decision, now))
    ensures w in Finishing(s, w, id, decision, now).workers
  {
    assert TaskOk(p, s.db, s.workers[w], id);
    var r := s.workers[w].tasks[id].record;
    var first := if id in s.ledger.firstFinish then s.ledger.firstFinish
                 else s.ledger.firstFinish[id := now];
    LogIsNoMatter(p, s.db, s.ledger, s.ledger.log, s.ledger.starts, first);
    var s1 := s.(ledger := s.ledger.(firstFinish := first));
    assert Inv(p, s1);
    match decision
    case Done => WorkerMoveKeepsInv(p, s1, w, id, r, None, now, Plain);
    case MoveTo(state, when) => WorkerMoveKeepsInv(p, s1, w, id, r, Some(state), when, Plain);
  }

  /** What a pop does to one id: it stays where it was, or it leaves the source for the
  destination, or it leaves the source for the third set because the destination has it. */
  lemma PopOneId(db: Db, source: Key, destination: Key, count: int, bound: Bound, newScore: real,
                 third: Option<Third>, x: Id)
    requires Distinct(source, destination, third)
    ensures var (after, moved) := PopPush(db, source, destination, count, bound, newScore, third);
            && (x in moved ==> x in db.Z(source) && x !in db.Z(destination) && x !in after.Z(source)
                               && x in after.Z(destination) && after.Z(destination)[x] == newScore)
            && (x !in moved ==> (x in after.Z(destination) <==> x in db.Z(destination)))
            && (x in db.Z(destination) ==>
                  x in after.Z(destination) && after.Z(destination)[x] == db.Z(destination)[x])
            && (x in after.Z(source) ==> x in db.Z(source))
            && (x in db.Z(source) && x !in after.Z(source) && x !in moved ==>
                  x in db.Z(destination) && (third.Some? ==> x in after.Z(third.value.key)))
            && (third.Some? && x in after.Z(third.value.key) && x !in db.Z(third.value.key) ==>
                  x in db.Z(source) && x in db.Z(destination))
  {
    var members := RangeByScore(db.Z(source), bound, count);
    PopPushSets(db, source, destination, count, bound, newScore, third);
    RangeIsRanks(db.Z(source), bound, count);
    FreshMembers(members, db.Z(destination));
  }

  /** A pop keeps what holds of each id, provided the score of an activated id is positive. */
  lemma PopKeepsId(p: Params, db: Db, ledger: Ledger, queue: Queue, source: State, destination: State,
                   count: int, bound: Bound, newScore: real, third: Option<real>, x: Id)
    requires source != destination && !source.Active? && newScore > 0.0
    requires third.Some? ==> source.Queued? && destination.Active?
    requires IdOk(p, db, ledger, x)
    ensures var t := if third.Some? then Some(Third(Key(Scheduled, queue), third.value)) else None;
            IdOk(p, PopPush(db, Key(source, queue), Key(destination, queue), count, bound, newScore, t).0,
                 ledger, x)
  {
    var t := if third.Some? then Some(Third(Key(Scheduled, queue), third.value)) else None;
    var src, dst := Key(source, queue), Key(destination, queue);
    var after := PopPush(db, src, dst, count, bound, newScore, t).0;
    PopOneId(db, src, dst, count, bound, newScore, t, x);
    PopPushSets(db, src, dst, count, bound, newScore, t);
    forall k | x in after.Z(k) ensures k.queue == p.home(x) && Current(p, after, ledger, x) {
      if k == src || k == dst || (t.Some? && k == t.value.key) {
        assert x in db.Z(src) || x in db.Z(k);
      } else {
        assert after.Z(k) == db.Z(k);
      }
    }
    if !p.unique(x) {
      var moved := PopPush(db, src, dst, count, bound, newScore, t).1;
      forall k | x in after.Z(k) ensures if x in moved then k == dst else x in db.Z(k) {
        if k != src && k != dst && (t.None? || k != t.value.key) { assert after.Z(k) == db.Z(k); }
      }
    }
    forall k: Key | k.state.Active? && x in after.Z(k) ensures after.Z(k)[x] > 0.0 {
      if k != dst { assert after.Z(k) == db.Z(k); }
    }
  }

  lemma PopKeepsIds(p: Params, db: Db, ledger: Ledger, queue: Queue, source: State, destination: State,
                    count: int, bound: Bound, newScore: real, third: Option<real>)
    requires source != destination && !source.Active? && newScore > 0.0
    requires third.Some? ==> source.Queued? && destination.Active?
    requires IdsOk(p, db, ledger)
    ensures var t := if third.Some? then Some(Third(Key(Scheduled, queue), third.value)) else None;
            IdsOk(p, PopPush(db, Key(source, queue), Key(destination, queue), count, bound, newScore, t).0, ledger)
  {
    var t := if third.Some? then Some(Third(Key(Scheduled, queue), third.value)) else None;
    var after := PopPush(db, Key(source, queue), Key(destination, queue), count, bound, newScore, t).0;
    forall x ensures IdOk(p, after, ledger, x) {
      PopKeepsId(p, db, ledger, queue, source, destination, count, bound, newScore, third, x);
    }
  }

  /** Popped ids were not active, so no worker held them and no pass had listed them. */
  lemma PoppingKeepsInv(p: Params, s: Sys, w: WorkerId, queue: Queue, count: int, now: real, later: real)
    requires Inv(p, s) && w !in s.workers && now > 0.0
    ensures Inv(p, Popping(s, w, queue, count, now, later))
  {
    var src, dst := Key(Queued, queue), Key(Active, queue);
    var t := Some(Third(Key(Scheduled, queue), later));
    var (db, moved) := PopQueued(s.db, queue, count, now, later);
    PopKeepsIndex(s, queue, count, now, later);
    PopKeepsIds(p, s.db, s.ledger, queue, Queued, Active, count, Unbounded, now, Some(later));
    forall q, x | s.db.Has(Active, q, x) ensures db.Has(Active, q, x) {
      PopOneId(s.db, src, dst, count, Unbounded, now, t, x);
      PopPushSets(s.db, src, dst, count, Unbounded, now, t);
    }
    ActiveFrame(p, s.db, db, s.workers, s.pass);
    forall x | x in moved ensures x !in s.db.Z(dst) && x in db.Z(dst) {
      PopOneId(s.db, src, dst, count, Unbounded, now, t, x);
    }
    if moved != [] {
      forall x | x in moved ensures p.home(x) == queue {
        PopOneId(s.db, src, dst, count, Unbounded, now, t, x);
        assert IdOk(p, s.db, s.ledger, x);
      }
      NewWorkerOk(p, s.db, db, s.workers, w, queue, moved, s.pass);
    }
  }

  lemma PopKeepsIndex(s: Sys, queue: Queue, count: int, now: real, later: real)
    requires IndexAgrees(s.db)
    ensures IndexAgrees(PopQueued(s.db, queue, count, now, later).0)
  {
    PopPushKeepsIndex(s.db, Key(Queued, queue), Key(Active, queue), count, Unbounded, now,
                      Some(Third(Key(Scheduled, queue), later)));
  }

  lemma NewWorkerOk(p: Params, a: Db, b: Db, workers: map<WorkerId, Work>, w: WorkerId, queue: Queue,
                    moved: seq<Id>, pass: Option<Pass>)
    requires WorkersOk(p, a, workers) && PassOk(p, a, workers, pass)
    requires WorkersOk(p, b, workers) && PassOk(p, b, workers, pass)
    requires w !in workers
    requires forall x :: x in moved ==> p.home(x) == queue && !a.Has(Active, queue, x) && b.Has(Active, queue, x)
    ensures var after := workers[w := Work(queue, map x | x in Elements(moved) :: Popped)];
            WorkersOk(p, b, after) && PassOk(p, b, after, pass)
  {
    var after := workers[w := Work(queue, map x | x in Elements(moved) :: Popped)];
    forall v, x | v in after && x in after[v].tasks ensures TaskOk(p, b, after[v], x) {
      if v != w { assert TaskOk(p, b, workers[v], x); }
    }
    forall u, v, x | u in after && v in after && x in after[u].tasks && x in after[v].tasks ensures u == v {
      if u != w { assert TaskOk(p, a, workers[u], x); }
      if v != w { assert TaskOk(p, a, workers[v], x); }
    }
    if pass.Some? {
      var todo := pass.value.todo;
      forall i | 0 <= i < |todo| ensures Abandoned(p, b, after, todo[i].0, todo[i].1) {
        assert Abandoned(p, b, workers, todo[i].0, todo[i].1);
        assert Abandoned(p, a, workers, todo[i].0, todo[i].1);
      }
    }
  }

  // ---- maintenance -------------------------------------------------------------------------

  lemma QueueDueKeepsInv(p: Params, s: Sys, queue: Queue, count: int, now: real)
    requires Inv(p, s) && now > 0.0
    ensures Inv(p, s.(db := QueueDue(s.db, queue, count, now).0))
  {
    var src, dst := Key(Scheduled, queue), Key(Queued, queue);
    var after := QueueDue(s.db, queue, count, now).0;
    PopPushKeepsIndex(s.db, src, dst, count, AtMost(now), now, None);
    PopKeepsIds(p, s.db, s.ledger, queue, Scheduled, Queued, count, AtMost(now), now, None);
    PopPushSets(s.db, src, dst, count, AtMost(now), now, None);
    forall q, x | s.db.Has(Active, q, x) ensures after.Has(Active, q, x) {
      assert after.Z(Key(Active, q)) == s.db.Z(Key(Active, q));
    }
    ActiveFrame(p, s.db, after, s.workers, s.pass);
  }

  /** The listing finds only ids that no live worker holds: a live worker's ids are fresh. */
  lemma ListingKeepsInv(p: Params, s: Sys, queues: seq<Queue>, batch: int, now: real)
    requires Inv(p, s) && Timely(p, s) && s.pass.None? && ListsActive(s.db, queues) && Reading(s, now)
    ensures Inv(p, Listing(p, s, queues, batch, now))
  {
    var todo := ExpiredBatch(s.db, queues, now - p.timeout, batch);
    BatchIsExpired(s.db, queues, now - p.timeout, batch);
    forall i | 0 <= i < |todo| ensures Abandoned(p, s.db, s.workers, todo[i].0, todo[i].1) {
      var (q, x) := todo[i];
      assert todo[i] in todo && Expired(s.db, now - p.timeout, q, x);
      assert IdOk(p, s.db, s.ledger, x);
      forall w | w in s.workers ensures x !in s.workers[w].tasks {}
    }
    forall i, j | 0 <= i < j < |todo| ensures todo[i].1 != todo[j].1 {
      assert IdOk(p, s.db, s.ledger, todo[i].1);
      assert todo[i] in todo && todo[j] in todo;
      assert Abandoned(p, s.db, s.workers, todo[i].0, todo[i].1);
      assert Abandoned(p, s.db, s.workers, todo[j].0, todo[j].1);
    }
  }

  /** Loading a listed task always succeeds. */
  lemma ProbingKeepsInv(p: Params, s: Sys)
    requires Inv(p, s) && Pending(s)
    ensures Inv(p, Probing(s)) && Probing(s).pass.value.probe.Found?
  {
    var (q, x) := s.pass.value.todo[0];
    assert Abandoned(p, s.db, s.workers, q, x);
    assert IdOk(p, s.db, s.ledger, x);
  }

  /** Moving a listed task always succeeds, and takes it away from no live worker. */
  lemma ExpiringKeepsInv(p: Params, s: Sys, retriable: bool)
    requires Inv(p, s) && Pending(s) && s.pass.value.probe.Found?
    ensures Inv(p, Expiring(s, retriable))
  {
    var (q, x) := s.pass.value.todo[0];
    var to, mode := if retriable then Queued else Error, if retriable then Nx else Plain;
    var now := s.pass.value.now;
    assert Abandoned(p, s.db, s.workers, q, x);
    var db := Move(s.db, x, q, Active, Some(to), p.unique(x), now, mode).value;
    MoveMembers(s.db, x, q, Active, Some(to), p.unique(x), now, mode);
    MoveKeepsIndex(s.db, x, q, Active, Some(to), p.unique(x), now, mode);
    MoveKeepsIds(p, s.db, s.ledger, x, Active, Some(to), now, mode);
    LogIsNoMatter(p, db, s.ledger, Pruned(s.ledger, db, x).log, s.ledger.starts, s.ledger.firstFinish);
    NextOk(p, s.db, db, s.workers, s.pass.value);
  }

  lemma NextOk(p: Params, a: Db, b: Db, workers: map<WorkerId, Work>, pass: Pass)
    requires WorkersOk(p, a, workers) && PassOk(p, a, workers, Some(pass)) && pass.todo != []
    requires forall q, x :: a.Has(Active, q, x) && x != pass.todo[0].1 ==> b.Has(Active, q, x)
    ensures WorkersOk(p, b, workers)
    ensures PassOk(p, b, workers, Some(pass.(todo := pass.todo[1..], probe := Unprobed)))
  {
    var todo := pass.todo;
    assert Abandoned(p, a, workers, todo[0].0, todo[0].1);
    forall w, y | w in workers && y in workers[w].tasks ensures TaskOk(p, b, workers[w], y) {
      assert TaskOk(p, a, workers[w], y);
    }
    forall i | 0 <= i < |todo[1..]| ensures Abandoned(p, b, workers, todo[1..][i].0, todo[1..][i].1) {
      assert Abandoned(p, a, workers, todo[i + 1].0, todo[i + 1].1);
    }
  }
}
