/** What the scripts promise: which ids are where afterwards, at which score, and that the
index sets keep agreeing with the sorted sets. */
module ScriptLaws {
  import opened SortedSets
  import opened Wrappers
  import opened TaskDb

  /** A queue is in the index set of a state exactly when its sorted set is not empty. */
  ghost predicate IndexAgrees(db: Db) {
    forall k :: k in db.index <==> db.Z(k) != map[]
  }

  lemma AddedHasMember(z: ZSet, score: real, id: Id, mode: Mode)
    requires !mode.Xx?
    ensures Added(z, score, id, mode).Keys == z.Keys + {id}
    ensures forall x :: x in z && x != id ==> Added(z, score, id, mode)[x] == z[x]
    ensures mode.Plain? || id !in z ==> Added(z, score, id, mode)[id] == score
    ensures mode.Nx? && id in z ==> Added(z, score, id, mode)[id] == z[id]
    ensures mode.Min? ==> Added(z, score, id, mode)[id] <= score
    ensures mode.Min? && id in z ==> Added(z, score, id, mode)[id] <= z[id]
  {}

  // ---- moves ---------------------------------------------------------------------------

  /** A move takes the id out of one set, puts it into at most one other, and moves no other id. */
  lemma MoveMembers(db: Db, id: Id, queue: Queue, from: State, to: Option<State>,
                    unique: bool, when: real, mode: Mode)
    requires MoveMode(mode) && to != Some(from)
    ensures Move(db, id, queue, from, to, unique, when, mode).Ok? <==> db.Has(from, queue, id)
    ensures var r := Move(db, id, queue, from, to, unique, when, mode);
            r.Ok? ==>
              && r.value.Z(Key(from, queue)) == db.Z(Key(from, queue)) - {id}
              && (to.Some? ==>
                    r.value.Z(Key(to.value, queue)) == Added(db.Z(Key(to.value, queue)), when, id, mode))
              && forall k :: k != Key(from, queue) && (to.Some? ==> k != Key(to.value, queue))
                         ==> r.value.Z(k) == db.Z(k)
  {
    if db.Has(from, queue, id) {
      var source := Key(from, queue);
      var entered := if to.Some? then Entered(db, id, Key(to.value, queue), when, mode) else db;
      if to.Some? {
        PutSets(db, Key(to.value, queue), Added(db.Z(Key(to.value, queue)), when, id, mode));
      }
      PutSets(entered, source, entered.Z(source) - {id});
      assert Move(db, id, queue, from, to, unique, when, mode).value.zsets == Left(entered, id, source).zsets;
    }
  }

  lemma PutSets(db: Db, k: Key, z: ZSet)
    ensures forall j :: db.Put(k, z).Z(j) == if j == k then z else db.Z(j)
  {}

  /** Deletion of the record and of the executions, each with its exact condition. */
  lemma MoveDeletes(db: Db, id: Id, queue: Queue, from: State, to: Option<State>,
                    unique: bool, when: real, mode: Mode)
    requires MoveMode(mode) && to != Some(from) && db.Has(from, queue, id)
    ensures var r := Move(db, id, queue, from, to, unique, when, mode).value;
            var dropsRecord := to.None? && (!unique || !Elsewhere(db, id, queue, from));
            var dropsHistory := to.None? && (!unique || from.Error? || !db.Has(Error, queue, id));
            && r.records == (if dropsRecord then db.records - {id} else db.records)
            && r.counts == (if dropsHistory then db.counts - {id} else db.counts)
            && r.executions == (if dropsHistory then db.executions - {id} else db.executions)
  {
    var left := Left(db, id, Key(from, queue));
    forall s: State | s != from ensures left.Has(s, queue, id) == db.Has(s, queue, id) {}
    assert Elsewhere(left, id, queue, from) == Elsewhere(db, id, queue, from) by {
      if s: State :| s != from && db.Has(s, queue, id) { assert left.Has(s, queue, id); }
      if s: State :| s != from && left.Has(s, queue, id) { assert db.Has(s, queue, id); }
    }
  }

  lemma MoveKeepsIndex(db: Db, id: Id, queue: Queue, from: State, to: Option<State>,
                       unique: bool, when: real, mode: Mode)
    requires MoveMode(mode) && to != Some(from)
    requires IndexAgrees(db) && db.Has(from, queue, id)
    ensures IndexAgrees(Move(db, id, queue, from, to, unique, when, mode).value)
  {
    var r := Move(db, id, queue, from, to, unique, when, mode).value;
    MoveMembers(db, id, queue, from, to, unique, when, mode);
    forall k ensures k in r.index <==> r.Z(k) != map[] {
      if to.Some? && k == Key(to.value, queue) {
        AddedHasMember(db.Z(k), when, id, mode);
        assert id in r.Z(k);
      }
    }
  }

  // ---- zpoppush ------------------------------------------------------------------------

  lemma {:induction false} FreshMembers(members: seq<Id>, destination: ZSet)
    ensures forall x :: x in Fresh(members, destination) <==> x in members && x !in destination
  {
    if members != [] {
      FreshMembers(members[1..], destination);
      assert members == [members[0]] + members[1..];
    }
  }

  /** The keys of a script call are pairwise different. */
  predicate Distinct(source: Key, destination: Key, third: Option<Third>) {
    source != destination
    && (third.Some? ==> third.value.key != source && third.value.key != destination)
  }

  /** The sorted sets after `members` left the source and those in `moved` were pushed. */
  ghost predicate SetsAfter(db: Db, after: Db, source: Key, destination: Key, members: set<Id>,
                            moved: set<Id>, newScore: real, third: Option<Third>)
  {
    && after.Z(source) == db.Z(source) - members
    && after.Z(destination) == db.Z(destination) + (map x | x in moved :: newScore)
    && (third.Some? ==>
          after.Z(third.value.key) == Lowered(db.Z(third.value.key), members - moved, third.value.score))
    && forall k :: k != source && k != destination && (third.Some? ==> k != third.value.key)
               ==> after.Z(k) == db.Z(k)
  }

  lemma TransferredSets(db: Db, source: Key, destination: Key, members: set<Id>, moved: set<Id>,
                        newScore: real, third: Option<Third>)
    requires Distinct(source, destination, third)
    ensures SetsAfter(db, Transferred(db, source, destination, members, moved, newScore, third),
                      source, destination, members, moved, newScore, third)
  {
    var z := db.Z(source) - members;
    var popped := db.Put(source, z);
    var w := db.Z(destination) + map x | x in moved :: newScore;
    PutSets(db, source, z);
    PutSets(popped, destination, w);
    if third.Some? {
      var Third(key, score) := third.value;
      PutSets(popped.Put(destination, w), key, Lowered(db.Z(key), members - moved, score));
    }
  }

  lemma NothingTransferred(db: Db, source: Key, destination: Key, newScore: real, third: Option<Third>)
    ensures SetsAfter(db, db, source, destination, {}, {}, newScore, third)
  {
    var none: set<Id> := {};
    assert db.Z(destination) + (map x | x in none :: newScore) == db.Z(destination);
  }

  lemma ReindexedIsIndexOnly(db: Db, source: Key, destination: Key, third: Option<Third>)
    ensures Reindexed(db, source, destination, third)
         == db.(index := Reindexed(db, source, destination, third).index)
  {}

  /** Where the script leaves the sorted sets, in terms of the members it found. */
  lemma PopPushSets(db: Db, source: Key, destination: Key, count: int, bound: Bound,
                    newScore: real, third: Option<Third>)
    requires Distinct(source, destination, third)
    ensures var members := RangeByScore(db.Z(source), bound, count);
            var (after, moved) := PopPush(db, source, destination, count, bound, newScore, third);
            && moved == Fresh(members, db.Z(destination))
            && SetsAfter(db, after, source, destination, Elements(members), Elements(moved), newScore, third)
            && after == db.(zsets := after.zsets, index := after.index)
  {
    var members := RangeByScore(db.Z(source), bound, count);
    var moved := Fresh(members, db.Z(destination));
    if members == [] {
      assert Elements([]) == {};
      NothingTransferred(db, source, destination, newScore, third);
    } else {
      var after := Transferred(db, source, destination, Elements(members), Elements(moved), newScore, third);
      TransferredSets(db, source, destination, Elements(members), Elements(moved), newScore, third);
      ReindexedIsIndexOnly(after, source, destination, third);
      SetsIgnoreIndex(db, after, Reindexed(after, source, destination, third), source, destination,
                      Elements(members), Elements(moved), newScore, third);
    }
  }

  lemma SetsIgnoreIndex(db: Db, a: Db, b: Db, source: Key, destination: Key, members: set<Id>,
                        moved: set<Id>, newScore: real, third: Option<Third>)
    requires SetsAfter(db, a, source, destination, members, moved, newScore, third)
    requires a.zsets == b.zsets
    ensures SetsAfter(db, b, source, destination, members, moved, newScore, third)
  {
    forall k ensures a.Z(k) == b.Z(k) {}
  }

  /** The members that a pop of `count` up to `bound` takes out of `z`. */
  ghost predicate Popped(z: ZSet, bound: Bound, count: int, x: Id) {
    x in z && Rank(z, x) < Cap(count, |Eligible(z, bound)|)
  }

  lemma PoppedAreMembers(z: ZSet, bound: Bound, count: int)
    ensures forall x :: Popped(z, bound, count, x) <==> x in RangeByScore(z, bound, count)
    ensures RemoveLowest(z, Cap(count, |Eligible(z, bound)|)) == z - Elements(RangeByScore(z, bound, count))
  {
    RangeIsRanks(z, bound, count);
    RangeMatchesRemoval(z, bound, count);
  }

  /** The simple reading of the script. Exactly the lowest-ranked min(count, eligible) members
  leave the source; those unknown to the destination enter it at the new score and are
  returned; the others keep their destination score and take the smaller score in the third
  set. */
  lemma PopPushMeaning(db: Db, source: Key, destination: Key, count: int, bound: Bound,
                       newScore: real, third: Option<Third>)
    requires Distinct(source, destination, third)
    ensures var src, dst := db.Z(source), db.Z(destination);
            var (after, moved) := PopPush(db, source, destination, count, bound, newScore, third);
            && after.Z(source) == RemoveLowest(src, Cap(count, |Eligible(src, bound)|))
            && (forall x :: x in moved <==> Popped(src, bound, count, x) && x !in dst)
            && after.Z(destination).Keys == dst.Keys + Elements(moved)
            && (forall x :: x in after.Z(destination) ==>
                  after.Z(destination)[x] == if x in dst then dst[x] else newScore)
  {
    PopPushSets(db, source, destination, count, bound, newScore, third);
    PoppedAreMembers(db.Z(source), bound, count);
    FreshMembers(RangeByScore(db.Z(source), bound, count), db.Z(destination));
  }

  lemma PopPushThird(db: Db, source: Key, destination: Key, count: int, bound: Bound,
                     newScore: real, third: Third)
    requires Distinct(source, destination, Some(third))
    ensures var src, dst, old3 := db.Z(source), db.Z(destination), db.Z(third.key);
            var new3 := PopPush(db, source, destination, count, bound, newScore, Some(third)).0.Z(third.key);
            && (forall x :: x in new3 <==> x in old3 || (Popped(src, bound, count, x) && x in dst))
            && (forall x :: x in new3 && Popped(src, bound, count, x) && x in dst ==>
                  new3[x] == if x in old3 && old3[x] < third.score then old3[x] else third.score)
            && (forall x :: x in new3 && !(Popped(src, bound, count, x) && x in dst) ==>
                  new3[x] == old3[x])
  {
    PopPushSets(db, source, destination, count, bound, newScore, Some(third));
    PoppedAreMembers(db.Z(source), bound, count);
    FreshMembers(RangeByScore(db.Z(source), bound, count), db.Z(destination));
  }

  predicate Ascending(z: ZSet, s: seq<Id>) {
    && (forall x :: x in s ==> x in z)
    && (forall i, j :: 0 <= i < j < |s| ==> Rank(z, s[i]) < Rank(z, s[j]))
  }

  lemma {:induction false} FreshKeepsOrder(members: seq<Id>, z: ZSet, destination: ZSet)
    requires Ascending(z, members)
    ensures Ascending(z, Fresh(members, destination))
  {
    FreshMembers(members, destination);
    if members != [] {
      var tail := members[1..];
      assert forall i :: 0 <= i < |tail| ==> tail[i] == members[i + 1];
      assert Ascending(z, tail);
      FreshKeepsOrder(tail, z, destination);
      FreshMembers(tail, destination);
      var rest := Fresh(tail, destination);
      forall x | x in rest ensures Rank(z, members[0]) < Rank(z, x) {
        var i :| 0 <= i < |tail| && tail[i] == x;
        assert members[i + 1] == x;
      }
    }
  }

  /** The returned ids come in the order of the source; in particular none is returned twice. */
  lemma PopPushOrder(db: Db, source: Key, destination: Key, count: int, bound: Bound,
                     newScore: real, third: Option<Third>)
    ensures Ascending(db.Z(source), PopPush(db, source, destination, count, bound, newScore, third).1)
  {
    var members := RangeByScore(db.Z(source), bound, count);
    RangeIsRanks(db.Z(source), bound, count);
    assert Ascending(db.Z(source), members);
    FreshKeepsOrder(members, db.Z(source), db.Z(destination));
  }

  /** No id is lost or invented: the ids in the sets together stay the same. */
  lemma PopPushConserves(db: Db, source: Key, destination: Key, count: int, bound: Bound,
                         newScore: real, third: Option<Third>)
    requires Distinct(source, destination, third)
    ensures var after := PopPush(db, source, destination, count, bound, newScore, third).0;
            && after.Z(source).Keys + after.Z(destination).Keys
               == db.Z(source).Keys + db.Z(destination).Keys
            && (third.Some? ==>
                  after.Z(third.value.key).Keys <= db.Z(third.value.key).Keys + db.Z(destination).Keys)
  {
    var members := RangeByScore(db.Z(source), bound, count);
    PopPushSets(db, source, destination, count, bound, newScore, third);
    RangeIsRanks(db.Z(source), bound, count);
    FreshMembers(members, db.Z(destination));
    SetsConserve(db, PopPush(db, source, destination, count, bound, newScore, third).0, source,
                 destination, Elements(members), Elements(Fresh(members, db.Z(destination))), newScore, third);
  }

  lemma SetsConserve(db: Db, after: Db, source: Key, destination: Key, members: set<Id>,
                     moved: set<Id>, newScore: real, third: Option<Third>)
    requires SetsAfter(db, after, source, destination, members, moved, newScore, third)
    requires members <= db.Z(source).Keys && moved == members - db.Z(destination).Keys
    ensures after.Z(source).Keys + after.Z(destination).Keys
         == db.Z(source).Keys + db.Z(destination).Keys
    ensures third.Some? ==>
              after.Z(third.value.key).Keys <= db.Z(third.value.key).Keys + db.Z(destination).Keys
  {}

  lemma PopPushKeepsIndex(db: Db, source: Key, destination: Key, count: int, bound: Bound,
                          newScore: real, third: Option<Third>)
    requires Distinct(source, destination, third) && IndexAgrees(db)
    ensures IndexAgrees(PopPush(db, source, destination, count, bound, newScore, third).0)
  {
    var members := RangeByScore(db.Z(source), bound, count);
    if members != [] {
      var after := PopPush(db, source, destination, count, bound, newScore, third).0;
      PopPushSets(db, source, destination, count, bound, newScore, third);
      PopPushIndex(db, source, destination, count, bound, newScore, third);
      FreshMembers(members, db.Z(destination));
      assert members[0] in after.Z(destination);
      if third.Some? {
        LoweredGrows(db.Z(third.value.key),
                     Elements(members) - Elements(Fresh(members, db.Z(destination))), third.value.score);
      }
      forall k ensures k in after.index <==> after.Z(k) != map[] {
        IndexedAfterPop(db, after, source, destination, third, k);
      }
    }
  }

  lemma IndexedAfterPop(db: Db, after: Db, source: Key, destination: Key, third: Option<Third>, k: Key)
    requires Distinct(source, destination, third) && IndexAgrees(db)
    requires after.index == db.index - (if after.Z(source) == map[] then {source} else {}) + {destination}
                           + (if third.Some? && after.Z(third.value.key) != map[]
                              then {third.value.key} else {})
    requires after.Z(destination) != map[] && db.Z(source) != map[]
    requires third.Some? && db.Z(third.value.key) != map[] ==> after.Z(third.value.key) != map[]
    requires k != source && k != destination && (third.Some? ==> k != third.value.key)
             ==> after.Z(k) == db.Z(k)
    ensures k in after.index <==> after.Z(k) != map[]
  {}

  lemma LoweredGrows(z: ZSet, ids: set<Id>, score: real)
    ensures z != map[] ==> Lowered(z, ids, score) != map[]
  {
    if z != map[] {
      var x :| x in z;
      assert x in Lowered(z, ids, score);
    }
  }

  lemma PopPushIndex(db: Db, source: Key, destination: Key, count: int, bound: Bound,
                     newScore: real, third: Option<Third>)
    requires Distinct(source, destination, third)
    requires RangeByScore(db.Z(source), bound, count) != []
    ensures var after := PopPush(db, source, destination, count, bound, newScore, third).0;
            after.index == db.index - (if after.Z(source) == map[] then {source} else {}) + {destination}
                           + (if third.Some? && after.Z(third.value.key) != map[]
                              then {third.value.key} else {})
  {}

  // ---- the rest ------------------------------------------------------------------------

  lemma DelayMembers(db: Db, queue: Queue, record: Record, state: State, score: real)
    ensures var after := Delay(db, queue, record, state, score);
            && after.Z(Key(state, queue)) == Added(db.Z(Key(state, queue)), score, record.id, Nx)
            && (forall k :: k != Key(state, queue) ==> after.Z(k) == db.Z(k))
            && after.records == db.records[record.id := record]
            && after.executions == db.executions && after.counts == db.counts
  {}

  lemma DelayKeepsIndex(db: Db, queue: Queue, record: Record, state: State, score: real)
    requires IndexAgrees(db)
    ensures IndexAgrees(Delay(db, queue, record, state, score))
  {
    var after := Delay(db, queue, record, state, score);
    DelayMembers(db, queue, record, state, score);
    AddedHasMember(db.Z(Key(state, queue)), score, record.id, Nx);
    assert record.id in after.Z(Key(state, queue));
    forall k ensures k in after.index <==> after.Z(k) != map[] {
      if k != Key(state, queue) { assert after.Z(k) == db.Z(k); }
    }
  }

  /** A heartbeat that only names active ids changes scores and nothing else. */
  lemma HeartbeatKeepsIndex(db: Db, queue: Queue, ids: set<Id>, now: real)
    requires IndexAgrees(db) && ids <= db.Z(Key(Active, queue)).Keys
    ensures IndexAgrees(Heartbeat(db, queue, ids, now))
    ensures forall k :: Heartbeat(db, queue, ids, now).Z(k).Keys == db.Z(k).Keys
  {
    var after := Heartbeat(db, queue, ids, now);
    forall k ensures after.Z(k).Keys == db.Z(k).Keys {}
    forall k ensures k in after.index <==> after.Z(k) != map[] {
      assert db.Z(k) == map[] <==> db.Z(k).Keys == {};
      assert after.Z(k) == map[] <==> after.Z(k).Keys == {};
    }
  }

  /** A heartbeat breaks the agreement exactly when it names ids of a queue that has no active task:
  the active set comes into being, and no index entry with it. */
  lemma HeartbeatIndexExact(db: Db, queue: Queue, ids: set<Id>, now: real)
    requires IndexAgrees(db)
    ensures IndexAgrees(Heartbeat(db, queue, ids, now)) <==> ids == {} || db.Z(Key(Active, queue)) != map[]
  {
    var k, after := Key(Active, queue), Heartbeat(db, queue, ids, now);
    assert after.Z(k).Keys == db.Z(k).Keys + ids;
    assert after.Z(k) == map[] <==> after.Z(k).Keys == {};
    assert db.Z(k) == map[] <==> db.Z(k).Keys == {};
    forall j | j != k ensures after.Z(j) == db.Z(j) {}
    assert k in after.index <==> db.Z(k) != map[];
  }
}
