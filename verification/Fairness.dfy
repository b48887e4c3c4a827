/** Queued tasks are served in the order of their scores, so none waits forever. */
module Fairness {
  import opened SortedSets
  import opened Wrappers
  import opened TaskDb
  import opened ScriptLaws
  import opened Protocol
  import opened Effects

  // ---- ranks -----------------------------------------------------------------------------

  /** The exact effect of one new member on the rank of another. */
  lemma InsertionRank(z: ZSet, y: Id, score: real, x: Id)
    requires x in z && y !in z
    ensures Rank(z[y := score], x)
         == Rank(z, x) + if score < z[x] || (score == z[x] && y < x) then 1 else 0
  {
    var b := z[y := score];
    if score < z[x] || (score == z[x] && y < x) {
      assert Preceding(b, x) == Preceding(z, x) + {y};
    } else {
      assert Preceding(b, x) == Preceding(z, x);
    }
  }

  /** A member that has score `score` comes after `x`. */
  predicate ComesAfter(z: ZSet, y: Id, score: real, x: Id)
    requires x in z
  {
    score > z[x] || (score == z[x] && y > x)
  }

  /** None of the arrivals gets in front of `x`: each comes after it, or was in front already. */
  predicate NoneOvertakes(z: ZSet, arrivals: ZSet, x: Id)
    requires x in z
  {
    forall y :: y in arrivals ==> ComesAfter(z, y, arrivals[y], x) || (y in z && Before(z, y, x))
  }

  /** New members, or one member with a new score, raise the rank of `x` exactly when one of them
  overtakes it. */
  lemma RankExact(z: ZSet, arrivals: ZSet, x: Id)
    requires x in z && x !in arrivals
    requires forall y :: y in arrivals && y in z ==> arrivals.Keys == {y}
    ensures Rank(z + arrivals, x) <= Rank(z, x) <==> NoneOvertakes(z, arrivals, x)
  {
    var b := z + arrivals;
    if NoneOvertakes(z, arrivals, x) {
      assert Preceding(b, x) <= Preceding(z, x);
      SubsetCardinality(Preceding(b, x), Preceding(z, x));
    } else {
      var y :| y in arrivals && !ComesAfter(z, y, arrivals[y], x) && !(y in z && Before(z, y, x));
      assert y in Preceding(b, x) && y !in Preceding(z, x);
      assert Preceding(z, x) + {y} <= Preceding(b, x);
      SubsetCardinality(Preceding(z, x) + {y}, Preceding(b, x));
    }
  }

  // ---- pops --------------------------------------------------------------------------------

  lemma EligibleUnbounded(z: ZSet)
    ensures Eligible(z, Unbounded) == z.Keys
  {}

  /** A pop of `count` takes the first `count` ranks and lowers the others by as much. */
  lemma PopServesFirst(db: Db, q: Queue, count: nat, now: real, later: real, x: Id)
    requires db.Has(Queued, q, x)
    ensures var z, after := db.Z(Key(Queued, q)), PopQueued(db, q, count, now, later).0.Z(Key(Queued, q));
            && (x in after <==> Rank(z, x) >= count)
            && (x in after ==> Rank(after, x) == Rank(z, x) - count && after[x] == z[x])
  {
    var z := db.Z(Key(Queued, q));
    PopPushMeaning(db, Key(Queued, q), Key(Active, q), count, Unbounded, now,
                   Some(Third(Key(Scheduled, q), later)));
    EligibleUnbounded(z);
    RankBelowSize(z, x);
    RangeIsRanks(z, Unbounded, count);
    if Rank(z, x) >= count {
      RemovalLowersRanks(z, Unbounded, count, x);
    }
  }

  lemma RankBelowSize(z: ZSet, x: Id)
    requires x in z
    ensures Rank(z, x) < |z.Keys|
  {
    assert Preceding(z, x) <= z.Keys - {x};
    SubsetCardinality(Preceding(z, x), z.Keys - {x});
  }

  lemma PopElsewhere(db: Db, queue: Queue, count: int, now: real, later: real, q: Queue)
    requires queue != q
    ensures PopQueued(db, queue, count, now, later).0.Z(Key(Queued, q)) == db.Z(Key(Queued, q))
  {
    PopPushSets(db, Key(Queued, queue), Key(Active, queue), count, Unbounded, now,
                Some(Third(Key(Scheduled, queue), later)));
  }

  // ---- what enters a queue -----------------------------------------------------------------

  /** The ids that an operation puts into the queued set of `q`, with their scores there. */
  function Arrivals(db: Db, op: Op, q: Queue): ZSet
    requires WellFormed(op)
  {
    var z := db.Z(Key(Queued, q));
    match op
    case Delaying(queue, r, state, score) =>
      if queue == q && state.Queued? && r.id !in z then map[r.id := score] else map[]
    case Moving(id, queue, from, to, unique, when, mode) =>
      if queue == q && to == Some(Queued) && db.Has(from, q, id) && !(mode.Nx? && id in z)
      then map[id := Added(z, when, id, mode)[id]] else map[]
    case Queueing(queue, count, now) =>
      if queue == q then map y | y in Elements(QueueDue(db, q, count, now).1) :: now else map[]
    case _ => map[]
  }

  /** Apart from pops, that is all that happens to a queue. */
  lemma QueueGainsArrivals(db: Db, op: Op, q: Queue)
    requires WellFormed(op) && !(op.Taking? && op.queue == q)
    ensures ApplyOp(db, op).Z(Key(Queued, q)) == db.Z(Key(Queued, q)) + Arrivals(db, op, q)
  {
    var z := db.Z(Key(Queued, q));
    assert z + map[] == z;
    match op
    case Delaying(_, _, _, _) => DelayGainsArrivals(db, op, q);
    case Moving(_, _, _, _, _, _, _) => MoveGainsArrivals(db, op, q);
    case Taking(queue, count, now, later) => PopElsewhere(db, queue, count, now, later, q);
    case Queueing(_, _, _) => PassGainsArrivals(db, op, q);
    case _ =>
  }

  lemma PassGainsArrivals(db: Db, op: Op, q: Queue)
    requires op.Queueing?
    ensures ApplyOp(db, op).Z(Key(Queued, q)) == db.Z(Key(Queued, q)) + Arrivals(db, op, q)
  {
    PopPushSets(db, Key(Scheduled, op.queue), Key(Queued, op.queue), op.count, AtMost(op.now), op.now, None);
  }

  lemma DelayGainsArrivals(db: Db, op: Op, q: Queue)
    requires op.Delaying?
    ensures ApplyOp(db, op).Z(Key(Queued, q)) == db.Z(Key(Queued, q)) + Arrivals(db, op, q)
  {
    DelayMembers(db, op.queue, op.record, op.state, op.score);
  }

  lemma MoveGainsArrivals(db: Db, op: Op, q: Queue)
    requires WellFormed(op) && op.Moving?
    ensures ApplyOp(db, op).Z(Key(Queued, q)) == db.Z(Key(Queued, q)) + Arrivals(db, op, q)
  {
    var z := db.Z(Key(Queued, q));
    if db.Has(op.from, op.queue, op.id) {
      MoveMembers(db, op.id, op.queue, op.from, op.to, op.unique, op.when, op.mode);
      AddedIsOneEntry(z, op.when, op.id, op.mode);
    }
  }

  lemma AddedIsOneEntry(z: ZSet, when: real, id: Id, mode: Mode)
    requires MoveMode(mode)
    ensures Added(z, when, id, mode) == z + map[id := Added(z, when, id, mode)[id]]
    ensures mode.Nx? && id in z ==> Added(z, when, id, mode) == z
  {}

  /** Only a single id can enter a queue that holds it already. */
  lemma ArrivalsAreNew(db: Db, op: Op, q: Queue)
    requires WellFormed(op)
    ensures forall y :: y in Arrivals(db, op, q) && y in db.Z(Key(Queued, q)) ==>
              op.Moving? && Arrivals(db, op, q).Keys == {y}
  {
    if op.Queueing? {
      var members := RangeByScore(db.Z(Key(Scheduled, q)), AtMost(op.now), op.count);
      FreshMembers(members, db.Z(Key(Queued, q)));
    }
  }

  ghost function ArrivalsOf(p: Params, s: Sys, step: Step, q: Queue): ZSet
    requires Enabled(p, s, step)
  {
    Arrivals(s.db, EffectOf(p, s, step), q)
  }

  // ---- one step ------------------------------------------------------------------------------

  function Place(s: Sys, q: Queue, x: Id): nat {
    var z := s.db.Z(Key(Queued, q));
    if x in z then Rank(z, x) else 0
  }

  predicate PopsFrom(step: Step, q: Queue, batch: nat) {
    step.Pop? && step.queue == q && step.count >= batch
  }

  /** How many steps from `i` to `j` popped at least `batch` tasks' worth from `q`. */
  function PopCount(steps: seq<Step>, q: Queue, batch: nat, i: nat, j: nat): nat
    requires i <= j <= |steps|
    decreases j
  {
    if i == j then 0
    else PopCount(steps, q, batch, i, j - 1) + if PopsFrom(steps[j - 1], q, batch) then 1 else 0
  }

  lemma EffectPops(p: Params, s: Sys, step: Step)
    requires Enabled(p, s, step)
    ensures EffectOf(p, s, step).Taking? ==> step.Pop? && EffectOf(p, s, step).queue == step.queue
  {}

  /** A waiting task enters its queue again only when it is also in the error set and retried. */
  lemma OnlyRetryReenters(p: Params, s: Sys, step: Step, q: Queue, x: Id)
    requires Enabled(p, s, step) && s.db.Has(Queued, q, x)
    ensures x in ArrivalsOf(p, s, step, q) <==>
              step.RetryTask? && step.id == x && p.home(x) == q && s.db.Has(Error, q, x)
  {
    ArrivalsAreNew(s.db, EffectOf(p, s, step), q);
  }

  /** The exact condition of the order: a step that does not pop from the queue leaves a waiting task
  there, and moves it back exactly when something it queues overtakes the task. */
  lemma StepKeepsPlaceExactly(p: Params, s: Sys, step: Step, q: Queue, x: Id)
    requires Enabled(p, s, step) && s.db.Has(Queued, q, x) && !(step.Pop? && step.queue == q)
    requires x !in ArrivalsOf(p, s, step, q)
    ensures Apply(p, s, step).db.Has(Queued, q, x)
    ensures Place(Apply(p, s, step), q, x) <= Place(s, q, x)
       <==> NoneOvertakes(s.db.Z(Key(Queued, q)), ArrivalsOf(p, s, step, q), x)
  {
    var op := EffectOf(p, s, step);
    StepAppliesEffect(p, s, step);
    EffectPops(p, s, step);
    QueueGainsArrivals(s.db, op, q);
    ArrivalsAreNew(s.db, op, q);
    RankExact(s.db.Z(Key(Queued, q)), Arrivals(s.db, op, q), x);
  }

  // ---- the clock -------------------------------------------------------------------------------

  /** The clock reading that a step gives to what it queues; an expiry pass uses the time of its
  listing. */
  function EntryTime(s: Sys, step: Step): real {
    match step
    case DelayTask(_, _, now) => now
    case RetryTask(_, now) => now
    case Begin(_, _, _, now) => now
    case QueueScheduled(_, _, now) => now
    case MoveExpired(_) => if s.pass.Some? then s.pass.value.now else 0.0
    case _ => 0.0
  }

  lemma ArrivalTimes(p: Params, s: Sys, step: Step, q: Queue)
    requires Enabled(p, s, step)
    ensures forall y :: y in ArrivalsOf(p, s, step, q) ==> ArrivalsOf(p, s, step, q)[y] == EntryTime(s, step)
  {}

  /** What step `m` of a run queues in `q`. */
  ghost function ArrivalsAt(p: Params, run: Run, m: nat, q: Queue): ZSet
    requires m < |run.steps| < |run.states| && Enabled(p, run.states[m], run.steps[m])
  {
    ArrivalsOf(p, run.states[m], run.steps[m], q)
  }

  ghost predicate EntersAt(p: Params, run: Run, m: nat, q: Queue, x: Id) {
    && m < |run.steps| < |run.states| && Enabled(p, run.states[m], run.steps[m])
    && x in ArrivalsAt(p, run, m, q)
  }

  /** `x` has waited in the queue ever since step `l`. */
  ghost predicate WaitsSince(run: Run, l: nat, n: nat, q: Queue, x: Id)
    requires n < |run.states|
  {
    forall k :: l < k <= n ==> run.states[k].db.Has(Queued, q, x)
  }

  /** The clock premise on the steps from `i` to `j`: what they queue while `x` waits is given a later
  time than `x` was given when this wait began. */
  ghost predicate LaterArrivals(p: Params, run: Run, i: nat, j: nat, q: Queue, x: Id)
    requires j < |run.states| == |run.steps| + 1
  {
    forall l, m, y :: 0 <= l < m && i <= m < j && EntersAt(p, run, l, q, x) && WaitsSince(run, l, m, q, x)
                      && EntersAt(p, run, m, q, y) ==>
      EntryTime(run.states[l], run.steps[l]) < EntryTime(run.states[m], run.steps[m])
  }

  /** A strictly increasing clock that is read together with each script: a step that queues
  something in `q` uses the clock of its state, and the clock moves on between two such steps. */
  ghost predicate ReadTogether(p: Params, run: Run, j: nat, q: Queue)
    requires j < |run.states| == |run.steps| + 1
  {
    && (forall m, y :: 0 <= m < j && EntersAt(p, run, m, q, y) ==>
          EntryTime(run.states[m], run.steps[m]) == run.states[m].clock)
    && (forall l, m, x, y :: 0 <= l < m < j && EntersAt(p, run, l, q, x) && EntersAt(p, run, m, q, y) ==>
          run.states[l].clock < run.states[m].clock)
  }

  /** Such a clock meets the premise for every task. */
  lemma ClockGivesLaterArrivals(p: Params, run: Run, i: nat, j: nat, q: Queue, x: Id)
    requires j < |run.states| == |run.steps| + 1 && ReadTogether(p, run, j, q)
    ensures LaterArrivals(p, run, i, j, q, x)
  {}

  /** A queued task has the time of the step that last queued it, and has waited since. */
  lemma {:induction false} QueuedSince(p: Params, run: Run, n: nat, q: Queue, x: Id) returns (l: nat)
    requires IsRun(p, run) && n < |run.states| && run.states[n].db.Has(Queued, q, x)
    ensures l < n && EntersAt(p, run, l, q, x) && WaitsSince(run, l, n, q, x)
    ensures run.states[n].db.Z(Key(Queued, q))[x] == EntryTime(run.states[l], run.steps[l])
  {
    assert StepAt(p, run, n - 1);
    if EntersAt(p, run, n - 1, q, x) {
      l := n - 1;
      ArrivalTimes(p, run.states[n - 1], run.steps[n - 1], q);
      EntryIsScore(p, run.states[n - 1], run.steps[n - 1], q, x);
    } else {
      StayedQueued(p, run.states[n - 1], run.steps[n - 1], q, x);
      l := QueuedSince(p, run, n - 1, q, x);
    }
  }

  lemma EntryIsScore(p: Params, s: Sys, step: Step, q: Queue, x: Id)
    requires Enabled(p, s, step) && x in ArrivalsOf(p, s, step, q)
    ensures var after := Apply(p, s, step).db.Z(Key(Queued, q));
            x in after && after[x] == ArrivalsOf(p, s, step, q)[x]
  {
    StepAppliesEffect(p, s, step);
    QueueGainsArrivals(s.db, EffectOf(p, s, step), q);
  }

  lemma StayedQueued(p: Params, s: Sys, step: Step, q: Queue, x: Id)
    requires Enabled(p, s, step) && x !in ArrivalsOf(p, s, step, q) && Apply(p, s, step).db.Has(Queued, q, x)
    ensures s.db.Has(Queued, q, x)
    ensures Apply(p, s, step).db.Z(Key(Queued, q))[x] == s.db.Z(Key(Queued, q))[x]
  {
    var op := EffectOf(p, s, step);
    StepAppliesEffect(p, s, step);
    if op.Taking? && op.queue == q {
      PopPushSets(s.db, Key(Queued, q), Key(Active, q), op.count, Unbounded, op.now,
                  Some(Third(Key(Scheduled, q), op.later)));
    } else {
      QueueGainsArrivals(s.db, op, q);
    }
  }

  /** Under the clock premise nothing overtakes a waiting task that is not retried itself. */
  lemma LaterArrivalsKeepOrder(p: Params, run: Run, i: nat, j: nat, m: nat, q: Queue, x: Id)
    requires IsRun(p, run) && i <= m < j < |run.states| && LaterArrivals(p, run, i, j, q, x)
    requires run.states[m].db.Has(Queued, q, x) && !(run.steps[m].RetryTask? && run.steps[m].id == x)
    ensures !EntersAt(p, run, m, q, x)
    ensures StepAt(p, run, m)
    ensures NoneOvertakes(run.states[m].db.Z(Key(Queued, q)), ArrivalsAt(p, run, m, q), x)
  {
    assert StepAt(p, run, m);
    var s, step := run.states[m], run.steps[m];
    OnlyRetryReenters(p, s, step, q, x);
    ArrivalTimes(p, s, step, q);
    var l := QueuedSince(p, run, m, q, x);
    forall y | y in ArrivalsAt(p, run, m, q)
      ensures ComesAfter(s.db.Z(Key(Queued, q)), y, ArrivalsAt(p, run, m, q)[y], x)
    {
      assert EntersAt(p, run, m, q, y);
    }
  }

  // ---- runs ------------------------------------------------------------------------------------

  /** The remaining premises for the steps from `i` to `j`: the task is not retried while it waits,
  and batch sizes are not negative. */
  ghost predicate FairSteps(run: Run, i: nat, j: nat, q: Queue, x: Id)
    requires i <= j <= |run.steps|
  {
    forall m :: i <= m < j ==> FairStep(run.steps[m], q, x)
  }

  predicate FairStep(step: Step, q: Queue, x: Id) {
    !(step.RetryTask? && step.id == x) && (step.Pop? && step.queue == q ==> step.count >= 0)
  }

  lemma StepMovesForward(p: Params, run: Run, i: nat, j: nat, m: nat, q: Queue, x: Id, batch: nat)
    requires IsRun(p, run) && i <= m < j < |run.states| && LaterArrivals(p, run, i, j, q, x)
    requires FairStep(run.steps[m], q, x)
    requires run.states[m].db.Has(Queued, q, x)
    ensures !run.states[m + 1].db.Has(Queued, q, x) ==> run.steps[m].Pop? && run.steps[m].queue == q
    ensures run.states[m + 1].db.Has(Queued, q, x) ==>
              Place(run.states[m + 1], q, x) + (if PopsFrom(run.steps[m], q, batch) then batch else 0)
              <= Place(run.states[m], q, x)
  {
    var s, step := run.states[m], run.steps[m];
    LaterArrivalsKeepOrder(p, run, i, j, m, q, x);
    if step.Pop? && step.queue == q {
      StepAppliesEffect(p, s, step);
      PopServesFirst(s.db, q, step.count, step.now, step.later, x);
    } else {
      StepKeepsPlaceExactly(p, s, step, q, x);
    }
  }

  /** A task that keeps waiting has moved forward by a whole batch with every pop. */
  lemma {:induction false} EveryPopMovesForward(p: Params, run: Run, i: nat, j: nat, q: Queue, x: Id, batch: nat)
    requires IsRun(p, run) && i <= j < |run.states| && LaterArrivals(p, run, i, j, q, x) && FairSteps(run, i, j, q, x)
    requires forall m :: i <= m <= j ==> run.states[m].db.Has(Queued, q, x)
    ensures Place(run.states[j], q, x) + batch * PopCount(run.steps, q, batch, i, j)
         <= Place(run.states[i], q, x)
  {
    if i < j {
      EveryPopMovesForward(p, run, i, j - 1, q, x, batch);
      StepMovesForward(p, run, i, j, j - 1, q, x, batch);
      OneMore(batch, PopCount(run.steps, q, batch, i, j - 1));
    }
  }

  lemma OneMore(batch: nat, n: nat)
    ensures batch * (n + 1) == batch * n + batch
  {}

  /** No starvation: a task at rank r has left the queued set after r / batch + 1 pops, and it was
  a pop that took it. */
  lemma NoStarvation(p: Params, run: Run, i: nat, j: nat, q: Queue, x: Id, batch: nat)
    requires IsRun(p, run) && i <= j < |run.states| && LaterArrivals(p, run, i, j, q, x) && FairSteps(run, i, j, q, x)
    requires batch > 0 && run.states[i].db.Has(Queued, q, x)
    requires PopCount(run.steps, q, batch, i, j) >= Place(run.states[i], q, x) / batch + 1
    ensures exists m :: i <= m < j && run.steps[m].Pop? && run.steps[m].queue == q
                     && run.states[m].db.Has(Queued, q, x) && !run.states[m + 1].db.Has(Queued, q, x)
  {
    if forall m :: i <= m <= j ==> run.states[m].db.Has(Queued, q, x) {
      EveryPopMovesForward(p, run, i, j, q, x, batch);
      TooManyPops(batch, PopCount(run.steps, q, batch, i, j), Place(run.states[i], q, x));
    } else {
      var n :| i <= n <= j && !run.states[n].db.Has(Queued, q, x);
      var m := LeavesAt(p, run, i, n, q, x);
      StepMovesForward(p, run, i, j, m, q, x, batch);
    }
  }

  lemma TooManyPops(batch: nat, pops: nat, rank: nat)
    requires batch > 0 && pops >= rank / batch + 1
    ensures batch * pops > rank
  {
    assert batch * pops >= batch * (rank / batch + 1);
  }

  lemma {:induction false} LeavesAt(p: Params, run: Run, i: nat, n: nat, q: Queue, x: Id) returns (m: nat)
    requires i <= n < |run.states| && run.states[i].db.Has(Queued, q, x) && !run.states[n].db.Has(Queued, q, x)
    ensures i <= m < n && run.states[m].db.Has(Queued, q, x) && !run.states[m + 1].db.Has(Queued, q, x)
  {
    if run.states[n - 1].db.Has(Queued, q, x) {
      m := n - 1;
    } else {
      m := LeavesAt(p, run, i, n - 1, q, x);
    }
  }
}
