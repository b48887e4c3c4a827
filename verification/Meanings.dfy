/** What the operations on the store mean, id by id: where an id is afterwards, and at which score. */
module Meanings {
  import opened SortedSets
  import opened Wrappers
  import opened TaskDb
  import opened ScriptLaws

  /** `x` is in both sets at the same score, or in neither. */
  predicate SameIn(a: ZSet, b: ZSet, x: Id) {
    (x in a <==> x in b) && (x in a ==> a[x] == b[x])
  }

  ghost predicate SameElsewhere(before: Db, after: Db, keys: set<Key>) {
    forall k :: k !in keys ==> after.Z(k) == before.Z(k)
  }

  predicate SameData(before: Db, after: Db) {
    after.records == before.records && after.executions == before.executions && after.counts == before.counts
  }

  // ---- ZADD -----------------------------------------------------------------------------------

  /** The score that each mode leaves a member with; nothing else changes. */
  lemma AddedMeaning(z: ZSet, score: real, id: Id, mode: Mode)
    ensures var after := Added(z, score, id, mode);
            && (forall x :: x != id ==> SameIn(z, after, x))
            && (mode.Plain? ==> id in after && after[id] == score)
            && (mode.Nx? ==> id in after && after[id] == if id in z then z[id] else score)
            && (mode.Xx? ==> if id in z then id in after && after[id] == score else id !in after)
            && (mode.Min? && id in z ==> id in after && after[id] <= z[id] && after[id] <= score
                                         && (after[id] == z[id] || after[id] == score))
            && (mode.Max? && id in z ==> id in after && after[id] >= z[id] && after[id] >= score
                                         && (after[id] == z[id] || after[id] == score))
            && ((mode.Min? || mode.Max?) && id !in z ==> id in after && after[id] == score)
  {}

  // ---- pops -----------------------------------------------------------------------------------

  /** One of the first `count` in the order of the queue; a negative count takes all. */
  ghost predicate IsTaken(queued: ZSet, count: int, x: Id) {
    x in queued && (Rank(queued, x) < count || count < 0)
  }

  /** What a pop does to each id of the queue: a taken one becomes active at `now`, unless it is active
  already; then it keeps its active score and is scheduled for `later`, or earlier if it was. */
  ghost predicate IsPopped(before: Db, after: Db, q: Queue, count: int, now: real, later: real) {
    var queued, active, scheduled := before.Z(Key(Queued, q)), before.Z(Key(Active, q)), before.Z(Key(Scheduled, q));
    var queued2, active2, scheduled2 := after.Z(Key(Queued, q)), after.Z(Key(Active, q)), after.Z(Key(Scheduled, q));
    && (forall x :: IsTaken(queued, count, x) ==> x !in queued2)
    && (forall x :: IsTaken(queued, count, x) && x !in active ==>
          x in active2 && active2[x] == now && SameIn(scheduled, scheduled2, x))
    && (forall x :: IsTaken(queued, count, x) && x in active ==>
          && SameIn(active, active2, x) && x in scheduled2
          && scheduled2[x] == if x in scheduled && scheduled[x] < later then scheduled[x] else later)
    && (forall x :: !IsTaken(queued, count, x) ==>
          SameIn(queued, queued2, x) && SameIn(active, active2, x) && SameIn(scheduled, scheduled2, x))
    && SameElsewhere(before, after, {Key(Queued, q), Key(Active, q), Key(Scheduled, q)})
    && SameData(before, after)
  }

  lemma TakenIsPopped(z: ZSet, count: int)
    ensures forall x :: IsTaken(z, count, x) <==> Popped(z, Unbounded, count, x)
  {
    assert Eligible(z, Unbounded) == z.Keys;
    forall x | x in z ensures Rank(z, x) < |z.Keys| {
      assert Preceding(z, x) <= z.Keys - {x};
      SubsetCardinality(Preceding(z, x), z.Keys - {x});
    }
  }

  lemma SetsArePopped(before: Db, after: Db, q: Queue, count: int, now: real, later: real, members: set<Id>)
    requires SetsAfter(before, after, Key(Queued, q), Key(Active, q), members,
                       members - before.Z(Key(Active, q)).Keys, now, Some(Third(Key(Scheduled, q), later)))
    requires forall x :: x in members <==> IsTaken(before.Z(Key(Queued, q)), count, x)
    requires SameData(before, after)
    ensures IsPopped(before, after, q, count, now, later)
  {}

  lemma TakenMembers(z: ZSet, bound: Bound, count: int, destination: ZSet)
    ensures var members := RangeByScore(z, bound, count);
            && (forall x :: x in Elements(members) <==> Popped(z, bound, count, x))
            && Elements(Fresh(members, destination)) == Elements(members) - destination.Keys
  {
    PoppedAreMembers(z, bound, count);
    FreshMembers(RangeByScore(z, bound, count), destination);
  }

  lemma PopMeaning(db: Db, q: Queue, count: int, now: real, later: real)
    ensures IsPopped(db, PopQueued(db, q, count, now, later).0, q, count, now, later)
    ensures forall x :: x in PopQueued(db, q, count, now, later).1
                   <==> IsTaken(db.Z(Key(Queued, q)), count, x) && !db.Has(Active, q, x)
  {
    var source, destination := Key(Queued, q), Key(Active, q);
    var members := RangeByScore(db.Z(source), Unbounded, count);
    var (after, moved) := PopQueued(db, q, count, now, later);
    TakenIsPopped(db.Z(source), count);
    TakenMembers(db.Z(source), Unbounded, count, db.Z(destination));
    PopPushSets(db, source, destination, count, Unbounded, now, Some(Third(Key(Scheduled, q), later)));
    SetsArePopped(db, after, q, count, now, later, Elements(members));
    forall x ensures x in moved <==> IsTaken(db.Z(source), count, x) && !db.Has(Active, q, x) {
      assert x in moved <==> x in Elements(moved);
    }
  }

  /** One of the first `count` due ids; a negative count takes all of them. */
  ghost predicate IsDue(scheduled: ZSet, count: int, now: real, x: Id) {
    x in scheduled && scheduled[x] <= now && (Rank(scheduled, x) < count || count < 0)
  }

  /** What the scheduling pass does to each id: a due one is queued at `now`, or keeps its place. */
  ghost predicate IsQueuedWhenDue(before: Db, after: Db, q: Queue, count: int, now: real) {
    var queued, scheduled := before.Z(Key(Queued, q)), before.Z(Key(Scheduled, q));
    var queued2, scheduled2 := after.Z(Key(Queued, q)), after.Z(Key(Scheduled, q));
    && (forall x :: IsDue(scheduled, count, now, x) ==>
          x !in scheduled2 && x in queued2 && queued2[x] == if x in queued then queued[x] else now)
    && (forall x :: !IsDue(scheduled, count, now, x) ==> SameIn(queued, queued2, x) && SameIn(scheduled, scheduled2, x))
    && SameElsewhere(before, after, {Key(Queued, q), Key(Scheduled, q)})
    && SameData(before, after)
  }

  /** The due ids are the lowest ranks. */
  lemma DueIsPopped(z: ZSet, count: int, now: real)
    ensures forall x :: IsDue(z, count, now, x) <==> Popped(z, AtMost(now), count, x)
  {
    var due := Eligible(z, AtMost(now));
    forall x | x in z ensures Rank(z, x) < |due| <==> z[x] <= now {
      if z[x] <= now {
        assert Preceding(z, x) <= due - {x};
        SubsetCardinality(Preceding(z, x), due - {x});
      } else {
        assert due <= Preceding(z, x);
        SubsetCardinality(due, Preceding(z, x));
      }
    }
  }

  lemma SetsAreQueuedWhenDue(before: Db, after: Db, q: Queue, count: int, now: real, members: set<Id>)
    requires SetsAfter(before, after, Key(Scheduled, q), Key(Queued, q), members,
                       members - before.Z(Key(Queued, q)).Keys, now, None)
    requires forall x :: x in members <==> IsDue(before.Z(Key(Scheduled, q)), count, now, x)
    requires SameData(before, after)
    ensures IsQueuedWhenDue(before, after, q, count, now)
  {}

  lemma DueMeaning(db: Db, q: Queue, count: int, now: real)
    ensures IsQueuedWhenDue(db, QueueDue(db, q, count, now).0, q, count, now)
  {
    var source, destination := Key(Scheduled, q), Key(Queued, q);
    var members := RangeByScore(db.Z(source), AtMost(now), count);
    DueIsPopped(db.Z(source), count, now);
    TakenMembers(db.Z(source), AtMost(now), count, db.Z(destination));
    PopPushSets(db, source, destination, count, AtMost(now), now, None);
    SetsAreQueuedWhenDue(db, QueueDue(db, q, count, now).0, q, count, now, Elements(members));
  }

  // ---- delays -----------------------------------------------------------------------------------

  /** The id is in the set of `k`, at `score` if it was not there; no other set changes. */
  ghost predicate IsEntered(before: Db, after: Db, k: Key, id: Id, score: real) {
    && after.Z(k) == (if id in before.Z(k) then before.Z(k) else before.Z(k)[id := score])
    && SameElsewhere(before, after, {k})
  }

  /** A delay without a due time, or with one that is not ahead, queues the id at `now`; any other
  schedules it for the due time. */
  ghost predicate IsDelayed(before: Db, after: Db, q: Queue, id: Id, due: Option<real>, now: real) {
    if due.Some? && due.value > now then IsEntered(before, after, Key(Scheduled, q), id, due.value)
    else IsEntered(before, after, Key(Queued, q), id, now)
  }

  lemma DelayEnters(db: Db, q: Queue, r: Record, state: State, score: real)
    ensures IsEntered(db, Delay(db, q, r, state, score), Key(state, q), r.id, score)
  {
    DelayMembers(db, q, r, state, score);
  }

  // ---- heartbeats ---------------------------------------------------------------------------------

  /** The named ids are active at `now`; every other score stays. */
  ghost predicate IsRefreshed(before: Db, after: Db, q: Queue, ids: set<Id>, now: real) {
    var active, active2 := before.Z(Key(Active, q)), after.Z(Key(Active, q));
    && (forall x :: x in ids ==> x in active2 && active2[x] == now)
    && (forall x :: x !in ids ==> SameIn(active, active2, x))
    && SameElsewhere(before, after, {Key(Active, q)})
    && after.index == before.index && SameData(before, after)
  }

  lemma HeartbeatMeaning(db: Db, q: Queue, ids: set<Id>, now: real)
    ensures IsRefreshed(db, Heartbeat(db, q, ids, now), q, ids, now)
  {
    assert Heartbeat(db, q, ids, now).Z(Key(Active, q)) == db.Z(Key(Active, q)) + map x | x in ids :: now;
  }

  // ---- moves ----------------------------------------------------------------------------------------

  /** `x` left the set of `from`, and nothing else changed in the sets. */
  ghost predicate IsRemoved(before: Db, after: Db, from: Key, x: Id) {
    after.Z(from) == before.Z(from) - {x} && SameElsewhere(before, after, {from})
  }

  /** `x` went from one set to another, where it has `score`. */
  ghost predicate IsMoved(before: Db, after: Db, from: Key, to: Key, x: Id, score: real) {
    && after.Z(from) == before.Z(from) - {x} && after.Z(to) == before.Z(to)[x := score]
    && SameElsewhere(before, after, {from, to})
  }

  function Earlier(z: ZSet, x: Id, score: real): real {
    if x in z && z[x] < score then z[x] else score
  }

  /** A move as the script makes it: to no other set, or at the score that the mode asks for. */
  lemma MoveMeaning(db: Db, id: Id, q: Queue, from: State, to: Option<State>, unique: bool, when: real, mode: Mode)
    requires MoveMode(mode) && to != Some(from) && db.Has(from, q, id)
    ensures var r := Move(db, id, q, from, to, unique, when, mode);
            && r.Ok?
            && (to.None? ==> IsRemoved(db, r.value, Key(from, q), id))
            && (to.Some? ==>
                  var z := db.Z(Key(to.value, q));
                  var score := if mode.Plain? then when
                               else if mode.Nx? then (if id in z then z[id] else when) else Earlier(z, id, when);
                  IsMoved(db, r.value, Key(from, q), Key(to.value, q), id, score) && SameData(db, r.value))
  {
    MoveMembers(db, id, q, from, to, unique, when, mode);
    MoveDeletes(db, id, q, from, to, unique, when, mode);
  }

  // ---- expired tasks ----------------------------------------------------------------------------------

  /** Where the expiry pass puts a listed task that has its record: back into the queue, keeping a place
  it has, exactly if it may be retried after a timeout, and to the failed tasks otherwise. */
  lemma ExpireMeaning(db: Db, q: Queue, x: Id, now: real)
    requires db.Has(Active, q, x) && db.Z(Key(Active, q))[x] != 0.0
    requires x in db.records && db.records[x].id == x
    ensures var r, retryOn, queued := ExpireOne(db, q, x, now), db.records[x].retryOn, db.Z(Key(Queued, q));
            && r.Ok?
            && if retryOn.Some? && "tasktiger.exceptions:JobTimeoutException" in retryOn.value
               then IsMoved(db, r.value, Key(Active, q), Key(Queued, q), x, if x in queued then queued[x] else now)
               else IsMoved(db, r.value, Key(Active, q), Key(Error, q), x, now)
  {
    var unique := db.records[x].unique;
    MoveMeaning(db, x, q, Active, Some(Queued), unique, now, Nx);
    MoveMeaning(db, x, q, Active, Some(Error), unique, now, Plain);
  }

  // ---- rescheduling -----------------------------------------------------------------------------------

  /** A task that is scheduled gets the new time, as its score and in its record; no other changes. */
  lemma RescheduleMeaning(db: Db, q: Queue, x: Id, when: real)
    ensures var r, k := Reschedule(db, q, x, when), Key(Scheduled, q);
            && (r.NotScheduled? <==> !db.Has(Scheduled, q, x))
            && (!r.NotScheduled? ==> r.db.Z(k) == db.Z(k)[x := when] && SameElsewhere(db, r.db, {k}))
            && (r.NoRecord? ==> x !in db.records && SameData(db, r.db))
            && (r.Rescheduled? ==>
                  && x in db.records
                  && r.db.records == db.records[x := db.records[x].(scheduledAt := when)]
                  && r.db.executions == db.executions && r.db.counts == db.counts)
  {}
}
