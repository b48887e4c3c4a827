/** Two runs in which an expiry pass queues a task again: a heartbeat that comes too late, and a pass
that is overtaken by a delay. */
module ExpiryRuns {
  import opened SortedSets
  import opened Wrappers
  import opened TaskDb
  import opened ScriptLaws
  import opened Protocol
  import opened Invariants
  import opened Effects
  import opened Runs
  import opened Fairness
  import opened ExpiryLaws
  import opened Decisions
  import opened History
  import Retry

  // ---- building runs -------------------------------------------------------------------------

  function Last(run: Run): Sys
    requires run.states != []
  {
    run.states[|run.states| - 1]
  }

  const Nothing := Run([Start], [])

  ghost function Then(p: Params, run: Run, step: Step): (longer: Run)
    requires IsRun(p, run) && Enabled(p, Last(run), step)
    ensures IsRun(p, longer) && Last(longer) == Apply(p, Last(run), step)
    ensures |longer.states| == |run.states| + 1 && longer.states[..|run.states|] == run.states
    ensures longer.steps == run.steps + [step]
  {
    var longer := Run(run.states + [Apply(p, Last(run), step)], run.steps + [step]);
    assert forall i :: 0 <= i < |run.steps| ==> (StepAt(p, longer, i) <==> StepAt(p, run, i));
    longer
  }

  /** A run in all of whose states the workers are timely. */
  ghost predicate IsTimelyRun(p: Params, run: Run) {
    IsRun(p, run) && TimelyUntil(p, run, |run.steps|)
  }

  lemma Extended(p: Params, run: Run, step: Step, next: Sys) returns (longer: Run)
    requires IsTimelyRun(p, run) && Enabled(p, Last(run), step) && next == Apply(p, Last(run), step)
    requires Timely(p, next)
    ensures IsTimelyRun(p, longer) && Last(longer) == next
    ensures longer == Then(p, run, step)
  {
    longer := Then(p, run, step);
    forall i | 0 <= i <= |longer.steps| ensures Timely(p, longer.states[i]) {
      if i < |run.states| { assert longer.states[i] == run.states[i]; }
    }
  }

  // ---- one task --------------------------------------------------------------------------------

  /** The store holds one task, in one set, with its record. */
  ghost predicate HoldsOnly(db: Db, state: State, q: Queue, id: Id, score: real, r: Record) {
    && IndexAgrees(db)
    && db.Z(Key(state, q)) == map[id := score]
    && (forall k :: k != Key(state, q) ==> db.Z(k) == map[])
    && id in db.records && db.records[id] == r && r.id == id
  }

  lemma DelayedAlone(q: Queue, r: Record, score: real)
    ensures HoldsOnly(Delay(Empty, q, r, Queued, score), Queued, q, r.id, score, r)
    ensures NoHistory(Delay(Empty, q, r, Queued, score))
  {
    assert forall k :: Empty.Z(k) == map[];
    DelayMembers(Empty, q, r, Queued, score);
    DelayKeepsIndex(Empty, q, r, Queued, score);
  }

  lemma FirstOfOne(z: ZSet, id: Id, score: real, bound: Bound)
    requires z == map[id := score] && Within(bound, score)
    ensures RangeByScore(z, bound, 1) == [id]
  {
    assert id in z;
    assert First(z) == id;
    assert z - {id} == map[];
  }

  lemma PoppedAlone(db: Db, q: Queue, id: Id, score: real, r: Record, now: real, later: real)
    requires HoldsOnly(db, Queued, q, id, score, r)
    ensures var (after, moved) := PopQueued(db, q, 1, now, later);
            HoldsOnly(after, Active, q, id, now, r) && moved == [id]
            && after.counts == db.counts && after.executions == db.executions
  {
    var source, destination := Key(Queued, q), Key(Active, q);
    var third := Some(Third(Key(Scheduled, q), later));
    FirstOfOne(db.Z(source), id, score, Unbounded);
    assert Fresh([id], map[]) == [id];
    assert Elements([id]) == {id};
    PopPushSets(db, source, destination, 1, Unbounded, now, third);
    PopPushKeepsIndex(db, source, destination, 1, Unbounded, now, third);
  }

  lemma ListedAlone(db: Db, q: Queue, id: Id, score: real, r: Record, cutoff: real)
    requires HoldsOnly(db, Active, q, id, score, r) && 0.0 <= score <= cutoff
    ensures ListsActive(db, [q]) && ExpiredBatch(db, [q], cutoff, 1) == [(q, id)]
  {
    assert id in db.Z(Key(Active, q));
    forall other ensures Key(Active, other) in db.index <==> other == q {
      assert other != q ==> db.Z(Key(Active, other)) == map[];
    }
    FirstOfOne(NonNegative(db.Z(Key(Active, q))), id, score, AtMost(cutoff));
    assert ExpiredIn(db, q, cutoff, 1) == [id];
  }

  lemma MovedBackAlone(db: Db, q: Queue, id: Id, score: real, r: Record, when: real)
    requires HoldsOnly(db, Active, q, id, score, r)
    ensures var result := Move(db, id, q, Active, Some(Queued), r.unique, when, Nx);
            result.Ok? && HoldsOnly(result.value, Queued, q, id, when, r)
  {
    assert id in db.Z(Key(Active, q));
    MoveMembers(db, id, q, Active, Some(Queued), r.unique, when, Nx);
    MoveDeletes(db, id, q, Active, Some(Queued), r.unique, when, Nx);
    MoveKeepsIndex(db, id, q, Active, Some(Queued), r.unique, when, Nx);
    assert map[id := score] - {id} == map[];
  }

  // ---- a task that is begun ----------------------------------------------------------------------

  predicate NoHistory(db: Db) {
    db.counts == map[] && db.executions == map[]
  }

  function One(w: WorkerId, q: Queue, id: Id, progress: Progress): map<WorkerId, Work> {
    map[w := Work(q, map[id := progress])]
  }

  /** Worker `w` is this far with the task, which it popped at time 1; there is no pass. */
  ghost predicate IsAt(p: Params, s: Sys, w: WorkerId, r: Record, progress: Progress) {
    && HoldsOnly(s.db, Active, p.home(r.id), r.id, 1.0, r)
    && s.clock == 1.0 && s.pass.None? && s.workers == One(w, p.home(r.id), r.id, progress)
    && s.ledger.delayed == {r.id}
  }

  lemma AtIsTimely(p: Params, s: Sys, w: WorkerId, r: Record, progress: Progress)
    requires p.timeout > 0.0 && IsAt(p, s, w, r, progress)
    ensures Timely(p, s)
  {}

  /** The task is queued at time 1, and no worker is there. */
  ghost predicate IsQueued(p: Params, s: Sys, r: Record) {
    && HoldsOnly(s.db, Queued, p.home(r.id), r.id, 1.0, r)
    && s.clock == 1.0 && s.pass.None? && s.workers == map[] && s.ledger.delayed == {r.id}
    && NoHistory(s.db)
  }

  lemma DelayRun(p: Params, r: Record) returns (run: Run)
    requires Fits(p, r.id, r) && r.scheduledAt == 1.0
    ensures IsTimelyRun(p, run) && IsQueued(p, Last(run), r)
  {
    var s := Start.(clock := 1.0);
    run := Extended(p, Nothing, Tick(1.0), s);
    DelayedAlone(p.home(r.id), r, 1.0);
    assert r.(scheduledAt := 1.0) == r;
    run := Extended(p, run, DelayTask(r, None, 1.0), Delayed(p, s, r, None, 1.0));
  }

  lemma PoppingOne(s: Sys, w: WorkerId, q: Queue, id: Id, now: real, later: real)
    requires PopQueued(s.db, q, 1, now, later).1 == [id]
    ensures Popping(s, w, q, 1, now, later).workers == s.workers[w := Work(q, map[id := Progress.Popped])]
  {
    var tasks := Popping(s, w, q, 1, now, later).workers[w].tasks;
    forall y ensures y in tasks <==> y == id {}
    assert tasks == map[id := Progress.Popped];
  }

  lemma PopRun(p: Params, run: Run, w: WorkerId, r: Record) returns (longer: Run)
    requires p.timeout > 0.0 && IsTimelyRun(p, run) && IsQueued(p, Last(run), r)
    ensures IsTimelyRun(p, longer) && IsAt(p, Last(longer), w, r, Progress.Popped) && NoHistory(Last(longer).db)
  {
    var s, q := Last(run), p.home(r.id);
    PoppedAlone(s.db, q, r.id, 1.0, r, 1.0, 2.0);
    PoppingOne(s, w, q, r.id, 1.0, 2.0);
    assert s.workers[w := Work(q, map[r.id := Progress.Popped])] == One(w, q, r.id, Progress.Popped);
    var next := Popping(s, w, q, 1, 1.0, 2.0);
    AtIsTimely(p, next, w, r, Progress.Popped);
    longer := Extended(p, run, Pop(w, q, 1, 1.0, 2.0), next);
  }

  lemma LoadRun(p: Params, run: Run, w: WorkerId, r: Record) returns (longer: Run)
    requires p.timeout > 0.0 && IsTimelyRun(p, run) && IsAt(p, Last(run), w, r, Progress.Popped)
    ensures IsTimelyRun(p, longer) && IsAt(p, Last(longer), w, r, Loaded(r)) && Last(longer).db == Last(run).db
  {
    var s := Last(run);
    assert (map y | y in s.workers[w].tasks :: Fetched(s.db, y)) == map[r.id := Loaded(r)];
    AtIsTimely(p, Loading(s, w), w, r, Loaded(r));
    longer := Extended(p, run, Load(w), Loading(s, w));
  }

  lemma BeginRun(p: Params, run: Run, w: WorkerId, r: Record) returns (longer: Run)
    requires p.timeout > 0.0 && IsTimelyRun(p, run) && IsAt(p, Last(run), w, r, Loaded(r))
    ensures IsTimelyRun(p, longer) && IsAt(p, Last(longer), w, r, Running(r, 1.0, 0))
    ensures Last(longer).db == Last(run).db
  {
    var s := Last(run);
    assert map[r.id := Loaded(r)][r.id := Running(r, 1.0, 0)] == map[r.id := Running(r, 1.0, 0)];
    var next := Beginning(p, s, w, r.id, None, 1.0);
    AtIsTimely(p, next, w, r, Running(r, 1.0, 0));
    longer := Extended(p, run, Begin(w, r.id, None, 1.0), next);
  }

  /** A task is delayed, popped, loaded and begun, all at time 1. */
  lemma Begun(p: Params, w: WorkerId, r: Record) returns (run: Run)
    requires p.timeout > 0.0 && Fits(p, r.id, r) && r.scheduledAt == 1.0
    ensures IsTimelyRun(p, run) && IsAt(p, Last(run), w, r, Running(r, 1.0, 0)) && NoHistory(Last(run).db)
  {
    run := DelayRun(p, r);
    run := PopRun(p, run, w, r);
    run := LoadRun(p, run, w, r);
    run := BeginRun(p, run, w, r);
  }

  // ---- the heartbeat that comes too late ---------------------------------------------------------

  /** The pass has listed the task, which has its record, and knows this much about it. */
  ghost predicate IsListed(p: Params, s: Sys, r: Record, probe: Probe) {
    && HoldsOnly(s.db, Active, p.home(r.id), r.id, 1.0, r)
    && s.clock == 1.0 + p.timeout
    && s.pass == Some(Pass(s.clock, [(p.home(r.id), r.id)], probe))
  }

  lemma ListTask(p: Params, s: Sys, r: Record)
    requires p.timeout > 0.0 && s.pass.None? && s.clock == 1.0 + p.timeout
    requires HoldsOnly(s.db, Active, p.home(r.id), r.id, 1.0, r)
    ensures var step := ListExpired([p.home(r.id)], 1, s.clock);
            Enabled(p, s, step) && IsListed(p, Apply(p, s, step), r, Unprobed)
  {
    ListedAlone(s.db, p.home(r.id), r.id, 1.0, r, s.clock - p.timeout);
  }

  lemma ProbeTask(p: Params, s: Sys, r: Record)
    requires IsListed(p, s, r, Unprobed)
    ensures Enabled(p, s, ProbeExpired) && IsListed(p, Apply(p, s, ProbeExpired), r, Found(r))
  {}

  lemma MoveTaskBack(p: Params, s: Sys, r: Record)
    requires IsListed(p, s, r, Found(r))
    ensures var step := MoveExpired(true);
            Enabled(p, s, step) && HoldsOnly(Apply(p, s, step).db, Queued, p.home(r.id), r.id, s.clock, r)
  {
    MovedBackAlone(s.db, p.home(r.id), r.id, 1.0, r, s.clock);
  }

  /** A worker sends no heartbeat for too long, and an expiry pass lists its task. */
  lemma LateRun(p: Params, w: WorkerId, r: Record) returns (run: Run)
    requires p.timeout > 0.0 && Fits(p, r.id, r) && r.scheduledAt == 1.0
    ensures IsRun(p, run) && IsListed(p, Last(run), r, Unprobed)
    ensures Last(run).workers == One(w, p.home(r.id), r.id, Running(r, 1.0, 0))
  {
    run := Begun(p, w, r);
    var late := 1.0 + p.timeout;
    run := Then(p, run, Tick(late));
    ListTask(p, Last(run), r);
    run := Then(p, run, ListExpired([p.home(r.id)], 1, late));
  }

  /** The index sets do stop agreeing: a worker that sends no heartbeat for too long loses its task to
  an expiry pass, and its next heartbeat puts the task into an active set that no index names. */
  lemma LateHeartbeatBreaksIndex(p: Params, w: WorkerId, r: Record) returns (run: Run)
    requires p.timeout > 0.0 && Fits(p, r.id, r) && r.scheduledAt == 1.0 && ShouldRetryOn(r, JOB_TIMEOUT)
    ensures IsRun(p, run) && run.steps != []
    ensures var n := |run.steps| - 1;
            && run.steps[n] == Beat(w, {r.id}, 1.0 + p.timeout) && Working(run.states[n], w, r.id)
            && IndexAgrees(run.states[n].db) && !IndexAgrees(run.states[n + 1].db)
  {
    run := LateRun(p, w, r);
    ProbeTask(p, Last(run), r);
    run := Then(p, run, ProbeExpired);
    MoveTaskBack(p, Last(run), r);
    run := Then(p, run, MoveExpired(ShouldRetryOn(r, JOB_TIMEOUT)));
    BeatTooLate(p, Last(run), w, r);
    run := Then(p, run, Beat(w, {r.id}, 1.0 + p.timeout));
  }

  lemma BeatTooLate(p: Params, s: Sys, w: WorkerId, r: Record)
    requires HoldsOnly(s.db, Queued, p.home(r.id), r.id, 1.0 + p.timeout, r)
    requires p.timeout > 0.0 && s.clock == 1.0 + p.timeout
    requires s.workers == One(w, p.home(r.id), r.id, Running(r, 1.0, 0))
    ensures var step := Beat(w, {r.id}, s.clock);
            Enabled(p, s, step) && !IndexAgrees(Apply(p, s, step).db)
  {
    StepIndexExact(p, s, Beat(w, {r.id}, s.clock));
  }

  // ---- the late worker that finishes -----------------------------------------------------------------

  /** A run that asks for no retry and for no log entry. */
  function Quiet(failedAt: real): Execution {
    Execution("Exception", Some(RetryRequest(Some(Retry.Fixed(1.0, 0)), false)), failedAt)
  }

  lemma QuietIsDone(r: Record, default: Retry.Method, failedAt: real, now: real)
    ensures Decide(r, default, false, Some(Quiet(failedAt)), 1, now) == Done
  {}

  /** The one stored failure of the task is a quiet one. */
  ghost predicate HasFailed(db: Db, x: Id) {
    x in db.executions && db.History(x) == [Quiet(1.0)] && db.Count(x) == 1
  }

  lemma FailRun(p: Params, run: Run, w: WorkerId, r: Record) returns (longer: Run)
    requires IsRun(p, run) && IsAt(p, Last(run), w, r, Running(r, 1.0, 0)) && NoHistory(Last(run).db)
    ensures IsRun(p, longer) && IsAt(p, Last(longer), w, r, Running(r, 1.0, 1)) && HasFailed(Last(longer).db, r.id)
  {
    var s, e := Last(run), Quiet(1.0);
    longer := Then(p, run, StoreFailure(w, r.id, e));
    var db := Recorded(s.db, r.id, e, r.maxStored);
    forall k ensures db.Z(k) == s.db.Z(k) {}
    assert [] + [e] == [e];
    assert map[r.id := Running(r, 1.0, 0)][r.id := Running(r, 1.0, 1)] == map[r.id := Running(r, 1.0, 1)];
  }

  /** The pass moves the task to the error set, and its executions stay. */
  lemma FailedByPass(p: Params, s: Sys, r: Record)
    requires IsListed(p, s, r, Found(r)) && HasFailed(s.db, r.id)
    ensures Enabled(p, s, MoveExpired(false))
    ensures var db := Apply(p, s, MoveExpired(false)).db;
            HoldsOnly(db, Error, p.home(r.id), r.id, s.clock, r) && HasFailed(db, r.id)
  {
    var q := p.home(r.id);
    assert r.id in s.db.Z(Key(Active, q));
    MoveMembers(s.db, r.id, q, Active, Some(Error), r.unique, s.clock, Plain);
    MoveDeletes(s.db, r.id, q, Active, Some(Error), r.unique, s.clock, Plain);
    MoveKeepsIndex(s.db, r.id, q, Active, Some(Error), r.unique, s.clock, Plain);
    assert map[r.id := 1.0] - {r.id} == map[];
  }

  lemma BeatAndFinish(p: Params, s: Sys, w: WorkerId, r: Record)
    requires HoldsOnly(s.db, Error, p.home(r.id), r.id, s.clock, r) && HasFailed(s.db, r.id)
    requires s.clock > 1.0 && s.workers == One(w, p.home(r.id), r.id, Running(r, 1.0, 1)) && !r.unique
    ensures var beat, finish := Beat(w, {r.id}, s.clock), Finish(w, r.id, Done, s.clock);
            && Enabled(p, s, beat)
            && var t := Apply(p, s, beat);
            && Enabled(p, t, finish) && HasFailed(t.db, r.id) && t.db.Has(Error, p.home(r.id), r.id)
            && var u := Apply(p, t, finish);
            && u.db.Has(Error, p.home(r.id), r.id) && r.id !in u.db.executions && r.id !in u.db.records
  {
    var q := p.home(r.id);
    var t := Apply(p, s, Beat(w, {r.id}, s.clock));
    assert t.db.Has(Active, q, r.id) && t.db.Z(Key(Error, q)) == s.db.Z(Key(Error, q));
    assert r.id in s.db.Z(Key(Error, q));
    MoveMembers(t.db, r.id, q, Active, None, false, s.clock, Plain);
    MoveDeletes(t.db, r.id, q, Active, None, false, s.clock, Plain);
  }

  /** Late workers can delete the history of a failed task: a pass fails the task of a worker that
  sends no heartbeat, its next heartbeat makes the task active again, and when it then finishes the
  task as its last execution asks, the executions and the record of the failed task are gone. */
  lemma LateFinishDropsHistory(p: Params, w: WorkerId, r: Record, default: Retry.Method) returns (run: Run)
    requires p.timeout > 0.0 && Fits(p, r.id, r) && r.scheduledAt == 1.0
    requires !r.unique && !ShouldRetryOn(r, JOB_TIMEOUT)
    ensures IsRun(p, run) && run.steps != []
    ensures var n, x := |run.steps| - 1, r.id;
            && var s, t := run.states[n], run.states[n + 1];
            && run.steps[n].Finish?
            && run.steps[n].decision == Decide(r, default, false, LastExecution(s.db, x), s.db.Count(x), s.clock)
            && s.db.Has(Error, p.home(x), x) && t.db.Has(Error, p.home(x), x) && !KeepsHistory(s.db, t.db, x)
  {
    run := FailedLateRun(p, w, r);
    var late := 1.0 + p.timeout;
    FailedByPass(p, Last(run), r);
    run := Then(p, run, MoveExpired(false));
    BeatAndFinish(p, Last(run), w, r);
    run := Then(p, run, Beat(w, {r.id}, late));
    QuietIsDone(r, default, 1.0, late);
    run := Then(p, run, Finish(w, r.id, Done, late));
  }

  lemma FailedLateRun(p: Params, w: WorkerId, r: Record) returns (run: Run)
    requires p.timeout > 0.0 && Fits(p, r.id, r) && r.scheduledAt == 1.0
    ensures IsRun(p, run) && IsListed(p, Last(run), r, Found(r)) && HasFailed(Last(run).db, r.id)
    ensures Last(run).workers == One(w, p.home(r.id), r.id, Running(r, 1.0, 1))
  {
    run := Begun(p, w, r);
    run := FailRun(p, run, w, r);
    run := Then(p, run, Tick(1.0 + p.timeout));
    ListTask(p, Last(run), r);
    run := Then(p, run, ListExpired([p.home(r.id)], 1, 1.0 + p.timeout));
    ProbeTask(p, Last(run), r);
    run := Then(p, run, ProbeExpired);
  }

  // ---- the pass that is overtaken ------------------------------------------------------------------

  /** `x` is queued at the clock, and the pass still has the earlier time of its listing. */
  ghost predicate IsOvertaken(p: Params, s: Sys, r: Record, x: Id, probe: Probe) {
    var q := p.home(r.id);
    && s.clock == 2.0 + p.timeout && s.workers == map[]
    && s.db.Z(Key(Queued, q)) == map[x := s.clock] && s.db.Z(Key(Active, q)) == map[r.id := 1.0]
    && r.id in s.db.records && s.db.records[r.id] == r
    && s.pass == Some(Pass(1.0 + p.timeout, [(q, r.id)], probe))
  }

  lemma DelayAfterListing(p: Params, s: Sys, r: Record, other: Record)
    requires p.timeout > 0.0 && other.id != r.id && p.home(other.id) == p.home(r.id)
    requires HoldsOnly(s.db, Active, p.home(r.id), r.id, 1.0, r)
    requires s.clock == 2.0 + p.timeout && s.workers == map[]
    requires s.pass == Some(Pass(1.0 + p.timeout, [(p.home(r.id), r.id)], Unprobed))
    ensures IsOvertaken(p, Delayed(p, s, other, None, s.clock), r, other.id, Unprobed)
  {
    var q := p.home(r.id);
    assert s.db.Z(Key(Queued, q)) == map[];
    DelayMembers(s.db, q, other.(scheduledAt := s.clock), Queued, s.clock);
  }

  lemma MoveOvertakes(p: Params, s: Sys, r: Record, x: Id)
    requires IsOvertaken(p, s, r, x, Found(r)) && Fits(p, r.id, r) && x != r.id
    ensures Enabled(p, s, MoveExpired(true)) && s.db.Has(Queued, p.home(r.id), x)
    ensures var q, after := p.home(r.id), Apply(p, s, MoveExpired(true));
            Place(s, q, x) == 0 && after.db.Has(Queued, q, x) && Place(after, q, x) == 1
            && after.workers == map[]
  {
    var q := p.home(r.id);
    var z := s.db.Z(Key(Queued, q));
    assert r.id in s.db.Z(Key(Active, q)) && x in z;
    MoveMembers(s.db, r.id, q, Active, Some(Queued), r.unique, 1.0 + p.timeout, Nx);
    assert Preceding(z, x) == {};
    InsertionRank(z, r.id, 1.0 + p.timeout, x);
  }

  lemma ExpiringRun(p: Params, w: WorkerId, r: Record) returns (run: Run)
    requires p.timeout > 0.0 && Fits(p, r.id, r) && r.scheduledAt == 1.0
    ensures IsTimelyRun(p, run) && IsListed(p, Last(run), r, Unprobed) && Last(run).workers == map[]
    ensures Last(run).ledger.delayed == {r.id}
  {
    run := Begun(p, w, r);
    var s := Last(run);
    assert s.workers - {w} == map[];
    run := Extended(p, run, Die(w), s.(workers := map[]));
    var late := s.(workers := map[], clock := 1.0 + p.timeout);
    run := Extended(p, run, Tick(late.clock), late);
    ListTask(p, late, r);
    var queues := [p.home(r.id)];
    run := Extended(p, run, ListExpired(queues, 1, late.clock), Listing(p, late, queues, 1, late.clock));
  }

  /** While a pass is under way, another task is delayed. */
  lemma DelayedDuringPass(p: Params, w: WorkerId, r: Record, other: Record) returns (run: Run)
    requires p.timeout > 0.0 && Fits(p, r.id, r) && r.scheduledAt == 1.0
    requires Fits(p, other.id, other) && other.id != r.id && p.home(other.id) == p.home(r.id)
    ensures IsTimelyRun(p, run) && IsOvertaken(p, Last(run), r, other.id, Unprobed)
  {
    run := ExpiringRun(p, w, r);
    var s := Last(run).(clock := 2.0 + p.timeout);
    run := Extended(p, run, Tick(s.clock), s);
    DelayAfterListing(p, s, r, other);
    run := Extended(p, run, DelayTask(other, None, s.clock), Delayed(p, s, other, None, s.clock));
  }

  lemma ProbeOvertaken(p: Params, s: Sys, r: Record, x: Id)
    requires IsOvertaken(p, s, r, x, Unprobed)
    ensures Enabled(p, s, ProbeExpired) && IsOvertaken(p, Probing(s), r, x, Found(r))
  {}

  /** The order does fail, even with timely workers: an expired task gets the time at which the pass
  was listed, and with it a place in front of a task that was queued between listing and move. */
  lemma ExpiryMayOvertake(p: Params, w: WorkerId, r: Record, other: Record) returns (run: Run)
    requires p.timeout > 0.0 && Fits(p, r.id, r) && r.scheduledAt == 1.0 && ShouldRetryOn(r, JOB_TIMEOUT)
    requires Fits(p, other.id, other) && other.id != r.id && p.home(other.id) == p.home(r.id)
    ensures IsTimelyRun(p, run) && run.steps != []
    ensures var q, x, n := p.home(r.id), other.id, |run.steps| - 1;
            && run.steps[n] == MoveExpired(ShouldRetryOn(r, JOB_TIMEOUT))
            && run.states[n].db.Has(Queued, q, x) && Place(run.states[n], q, x) == 0
            && run.states[n + 1].db.Has(Queued, q, x) && Place(run.states[n + 1], q, x) == 1
  {
    run := DelayedDuringPass(p, w, r, other);
    ProbeOvertaken(p, Last(run), r, other.id);
    run := Extended(p, run, ProbeExpired, Probing(Last(run)));
    MoveOvertakes(p, Last(run), r, other.id);
    run := Extended(p, run, MoveExpired(true), Apply(p, Last(run), MoveExpired(true)));
  }
}
