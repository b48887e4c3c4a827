/** The Redis server: the commands TaskTiger uses and the scripts built from them, updating
the store in place. Each script is proved to make exactly the change that TaskDb describes. */
module RedisStore {
  import opened SortedSets
  import opened Wrappers
  import opened TaskDb
  import opened ScriptLaws
  import opened Meanings

  class Store {
    var zsets: map<Key, ZSet>
    var index: set<Key>
    var records: map<Id, Record>
    var executions: map<Id, seq<Execution>>
    var counts: map<Id, nat>

    ghost function Value(): Db
      reads this
    {
      Db(zsets, index, records, executions, counts)
    }

    ghost predicate Valid()
      reads this
    {
      forall k :: k in zsets ==> zsets[k] != map[]
    }

    constructor ()
      ensures Valid() && Value() == Empty
    {
      zsets, index, records, executions, counts := map[], {}, map[], map[], map[];
    }

    // ---- single commands ---------------------------------------------------------------

    function ZScore(k: Key, id: Id): (score: Option<real>)
      reads this
      ensures score.Some? <==> id in Value().Z(k)
      ensures score.Some? ==> score.value == Value().Z(k)[id]
    {
      if id in Lookup(zsets, k) then Some(Lookup(zsets, k)[id]) else None
    }

    predicate Exists(k: Key)
      requires Valid()
      reads this
      ensures Exists(k) <==> Value().Z(k) != map[]
    {
      k in zsets
    }

    method ZAdd(k: Key, score: real, ids: seq<Id>)
      requires Valid()
      modifies `zsets
      ensures Valid()
      ensures zsets == Stored(old(zsets), k, Lookup(old(zsets), k) + map x | x in Elements(ids) :: score)
    {
      zsets := Stored(zsets, k, Lookup(zsets, k) + map x | x in Elements(ids) :: score);
    }

    method ZAddOne(k: Key, score: real, id: Id)
      requires Valid()
      modifies `zsets
      ensures Valid() && zsets == Stored(old(zsets), k, Lookup(old(zsets), k)[id := score])
    {
      assert Lookup(zsets, k) + (map x | x in Elements([id]) :: score) == Lookup(zsets, k)[id := score];
      ZAdd(k, score, [id]);
    }

    method ZRem(k: Key, id: Id)
      requires Valid()
      modifies `zsets
      ensures Valid() && Value() == Left(old(Value()), id, k)
    {
      zsets := Stored(zsets, k, Lookup(zsets, k) - {id});
    }

    method ZRemRangeByRank(k: Key, n: nat)
      requires Valid()
      modifies `zsets
      ensures Valid() && zsets == Stored(old(zsets), k, RemoveLowest(Lookup(old(zsets), k), n))
    {
      zsets := Stored(zsets, k, RemoveLowest(Lookup(zsets, k), n));
    }

    method SAdd(k: Key)
      modifies `index
      ensures index == old(index) + {k}
    {
      index := index + {k};
    }

    // ---- the zadd modes ------------------------------------------------------------------

    /** ZADD_NOUPDATE, ZADD_UPDATE_EXISTING, ZADD_UPDATE_MIN and ZADD_UPDATE_MAX. */
    method ZAddMode(k: Key, score: real, id: Id, mode: Mode)
      requires Valid()
      modifies `zsets
      ensures Valid() && zsets == Stored(old(zsets), k, Added(Lookup(old(zsets), k), score, id, mode))
    {
      var present := ZScore(k, id);
      match mode
      case Plain =>
        ZAddOne(k, score, id);
      case Nx =>
        if present.None? { ZAddOne(k, score, id); }
      case Xx =>
        if present.Some? { ZAddOne(k, score, id); }
      case Min =>
        ZAddOne(k, if present.Some? && present.value < score then present.value else score, id);
      case Max =>
        ZAddOne(k, if present.Some? && present.value > score then present.value else score, id);
    }

    // ---- move_task.lua -------------------------------------------------------------------

    method SRemIfNotExists(k: Key)
      requires Valid()
      modifies `index
      ensures Value() == Unindexed(old(Value()), k)
    {
      if !Exists(k) {
        index := index - {k};
      }
    }

    /** DELETE_IF_NOT_IN_ZSETS: the deletion is called off by the first set that holds the id. */
    method DeleteIfNotInZsets(record: bool, history: bool, id: Id, keys: seq<Key>)
      modifies `records, `executions, `counts
      ensures var absent := forall k :: k in keys ==> id !in old(Value()).Z(k);
              && records == (if record && absent then old(records) - {id} else old(records))
              && executions == (if history && absent then old(executions) - {id} else old(executions))
              && counts == (if history && absent then old(counts) - {id} else old(counts))
    {
      var found := false;
      var i := 0;
      while i < |keys|
        invariant 0 <= i <= |keys|
        invariant !found ==> forall j :: 0 <= j < i ==> id !in Value().Z(keys[j])
        invariant found ==> exists k :: k in keys && id in Value().Z(k)
      {
        if ZScore(keys[i], id).Some? {
          found := true;
          break;
        }
        i := i + 1;
      }
      if !found {
        Delete(record, history, id);
      }
    }

    method Delete(record: bool, history: bool, id: Id)
      modifies `records, `executions, `counts
      ensures records == (if record then old(records) - {id} else old(records))
      ensures executions == (if history then old(executions) - {id} else old(executions))
      ensures counts == (if history then old(counts) - {id} else old(counts))
    {
      if record {
        records := records - {id};
      }
      if history {
        executions := executions - {id};
        counts := counts - {id};
      }
    }

    /** The keys of a queue in every state but one. */
    method OtherKeys(queue: Queue, from: State) returns (keys: seq<Key>)
      ensures forall k :: k in keys <==> k.queue == queue && k.state != from
    {
      var states := [Active, Queued, Error, Scheduled];
      keys := [];
      for i := 0 to 4
        invariant forall k :: k in keys <==> k.queue == queue && k.state != from && k.state in states[..i]
      {
        if states[i] != from {
          keys := keys + [Key(states[i], queue)];
        }
      }
      assert states[..4] == states;
      forall s: State ensures s in states {
        match s
        case Active => assert states[0] == s;
        case Queued => assert states[1] == s;
        case Error => assert states[2] == s;
        case Scheduled => assert states[3] == s;
      }
    }

    method Discard(id: Id, queue: Queue, from: State, unique: bool)
      modifies `records, `executions, `counts
      ensures Value() == Discarded(old(Value()), id, queue, from, unique)
    {
      ghost var before := Value();
      if unique {
        var errorKeys := if from.Error? then [] else [Key(Error, queue)];
        var keys := OtherKeys(queue, from);
        AbsentFromKeys(before, id, queue, from, errorKeys, keys);
        DeleteIfNotInZsets(false, true, id, errorKeys);
        DeleteIfNotInZsets(true, false, id, keys);
      } else {
        Delete(true, true, id);
      }
    }

    /** move_task.lua; `ok` is false when the script's assertion fails. */
    method MoveTask(id: Id, queue: Queue, from: State, to: Option<State>, unique: bool,
                    when: real, mode: Mode) returns (ok: bool)
      requires Valid() && MoveMode(mode)
      modifies this
      ensures Valid()
      ensures ok <==> Move(old(Value()), id, queue, from, to, unique, when, mode).Ok?
      ensures ok ==> Move(old(Value()), id, queue, from, to, unique, when, mode) == Ok(Value())
      ensures !ok ==> Value() == old(Value())
    {
      if ZScore(Key(from, queue), id).None? {
        return false;
      }
      if to.Some? {
        ZAddMode(Key(to.value, queue), when, id, mode);
        SAdd(Key(to.value, queue));
      }
      ZRem(Key(from, queue), id);
      if to.None? {
        Discard(id, queue, from, unique);
      }
      SRemIfNotExists(Key(from, queue));
      return true;
    }

    // ---- zpoppush ------------------------------------------------------------------------

    /** ZPOPPUSH_EXISTS_MIN_UPDATE_SETS when `third` is given, ZPOPPUSH_EXISTS_IGNORE_UPDATE_SETS
    otherwise. */
    method ZPopPushExists(source: Key, destination: Key, count: int, bound: Bound, newScore: real,
                          third: Option<Third>) returns (moved: seq<Id>)
      requires Valid() && Distinct(source, destination, third)
      modifies `zsets, `index
      ensures Valid()
      ensures (Value(), moved) == PopPush(old(Value()), source, destination, count, bound, newScore, third)
    {
      var members := RangeByScore(Lookup(zsets, source), bound, count);
      var existing;
      moved, existing := Partition(members, destination);
      if |members| > 0 {
        RangeMatchesRemoval(Lookup(zsets, source), bound, count);
        Transfer(source, destination, members, moved, existing, newScore, third);
        UpdateSets(source, destination, third);
      }
    }

    /** The changes to the sorted sets, from ZREMRANGEBYRANK to the "if exists" loop. */
    method Transfer(source: Key, destination: Key, members: seq<Id>, moved: seq<Id>,
                    existing: seq<Id>, newScore: real, third: Option<Third>)
      requires Valid() && Distinct(source, destination, third)
      requires RemoveLowest(Value().Z(source), |members|) == Value().Z(source) - Elements(members)
      requires Elements(existing) == Elements(members) - Elements(moved)
      modifies `zsets
      ensures Valid()
      ensures Value() == Transferred(old(Value()), source, destination, Elements(members),
                                     Elements(moved), newScore, third)
    {
      ghost var start := zsets;
      LookupStored(start, source, Lookup(start, source) - Elements(members), destination);
      ZRemRangeByRank(source, |members|);
      ghost var popped := zsets;
      StoredSame(popped, destination);
      if |moved| > 0 {
        ZAdd(destination, newScore, moved);
      } else {
        assert Lookup(zsets, destination) + (map x | x in Elements(moved) :: newScore)
            == Lookup(zsets, destination);
      }
      assert zsets == Stored(popped, destination,
                             Lookup(start, destination) + map x | x in Elements(moved) :: newScore);
      if third.Some? {
        LookupStored(popped, destination, Lookup(zsets, destination), third.value.key);
        LookupStored(start, source, Lookup(popped, source), third.value.key);
        LowerAll(third.value.key, existing, third.value.score);
      }
    }

    method Partition(members: seq<Id>, destination: Key) returns (moved: seq<Id>, existing: seq<Id>)
      ensures moved == Fresh(members, Value().Z(destination))
      ensures Elements(existing) == Elements(members) - Elements(moved)
    {
      moved, existing := [], [];
      for i := 0 to |members|
        invariant moved == Fresh(members[..i], Value().Z(destination))
        invariant forall x :: x in existing <==> x in members[..i] && x in Value().Z(destination)
      {
        FreshAppend(members[..i], members[i], Value().Z(destination));
        assert members[..i + 1] == members[..i] + [members[i]];
        if ZScore(destination, members[i]).Some? {
          existing := existing + [members[i]];
        } else {
          moved := moved + [members[i]];
        }
      }
      assert members[..|members|] == members;
      FreshMembers(members, Value().Z(destination));
    }

    /** The "if exists" action: one ZADD in "min" mode for each member that collided. */
    method LowerAll(k: Key, ids: seq<Id>, score: real)
      requires Valid()
      modifies `zsets
      ensures Valid()
      ensures zsets == Stored(old(zsets), k, Lowered(Lookup(old(zsets), k), Elements(ids), score))
    {
      ghost var z := Lookup(zsets, k);
      assert Lowered(z, Elements([]), score) == z;
      for i := 0 to |ids|
        invariant Valid()
        invariant zsets == Stored(old(zsets), k, Lowered(z, Elements(ids[..i]), score))
      {
        assert ids[..i + 1] == ids[..i] + [ids[i]];
        LoweredAgain(z, ids[..i], ids[i], score);
        ZAddMode(k, score, ids[i], Min);
      }
      assert ids[..|ids|] == ids;
    }

    method UpdateSets(source: Key, destination: Key, third: Option<Third>)
      requires Valid()
      modifies `index
      ensures Value() == Reindexed(old(Value()), source, destination, third)
    {
      if !Exists(source) {
        index := index - {source};
      }
      SAdd(destination);
      if third.Some? && Exists(third.value.key) {
        SAdd(third.value.key);
      }
    }

    // ---- the remaining scripts and MULTI blocks --------------------------------------------

    /** The MULTI block of `Task.delay`. */
    method DelayTask(queue: Queue, record: Record, state: State, score: real)
      requires Valid()
      modifies this
      ensures Valid() && Value() == Delay(old(Value()), queue, record, state, score)
      ensures IsEntered(old(Value()), Value(), Key(state, queue), record.id, score)
    {
      DelayEnters(Value(), queue, record, state, score);
      SAdd(Key(state, queue));
      records := records[record.id := record];
      ZAddMode(Key(state, queue), score, record.id, Nx);
    }

    /** `Worker.heartbeat`: one ZADD for all ids. */
    method Beat(queue: Queue, ids: seq<Id>, now: real)
      requires Valid()
      modifies `zsets
      ensures Valid() && Value() == Heartbeat(old(Value()), queue, Elements(ids), now)
      ensures IsRefreshed(old(Value()), Value(), queue, Elements(ids), now)
    {
      HeartbeatMeaning(Value(), queue, Elements(ids), now);
      ZAdd(Key(Active, queue), now, ids);
    }

    /** The MULTI block of `store_task_execution`. */
    method StoreExecution(id: Id, execution: Execution, maxStored: nat)
      modifies `executions, `counts
      ensures Value() == Recorded(old(Value()), id, execution, maxStored)
    {
      counts := counts[id := (if id in counts then counts[id] else 0) + 1];
      executions := executions[id := (if id in executions then executions[id] else []) + [execution]];
      if maxStored > 0 && |executions[id]| > maxStored {
        executions := executions[id := executions[id][|executions[id]| - maxStored..]];
      }
    }

    /** UPDATE_SCHEDULED_TIME; `failed` says that the script stopped at the missing record. */
    method UpdateScheduledTime(queue: Queue, id: Id, when: real) returns (found: bool, failed: bool)
      requires Valid()
      modifies `zsets, `records
      ensures Valid()
      ensures match Reschedule(old(Value()), queue, id, when)
              case NotScheduled => !found && !failed && Value() == old(Value())
              case Rescheduled(db) => found && !failed && Value() == db
              case NoRecord(db) => failed && Value() == db
    {
      var k := Key(Scheduled, queue);
      if ZScore(k, id).None? {
        return false, false;
      }
      ZAddMode(k, when, id, Plain);
      if id !in records {
        return true, true;
      }
      records := records[id := records[id].(scheduledAt := when)];
      return true, false;
    }

    method AppendPairs(before: seq<(Queue, Id)>, queue: Queue, ids: seq<Id>)
      returns (result: seq<(Queue, Id)>)
      ensures result == before + Pairs(queue, ids)
    {
      result := before;
      for j := 0 to |ids|
        invariant result == before + Pairs(queue, ids[..j])
      {
        assert Pairs(queue, ids[..j + 1]) == Pairs(queue, ids[..j]) + [(queue, ids[j])];
        result := result + [(queue, ids[j])];
      }
      assert ids[..|ids|] == ids;
    }

    /** GET_EXPIRED_TASKS; `queues` lists the active queues in the order SMEMBERS gave them. */
    method GetExpiredTasks(queues: seq<Queue>, cutoff: real, batch: int) returns (result: seq<(Queue, Id)>)
      ensures result == ExpiredBatch(Value(), queues, cutoff, batch)
    {
      result := [];
      var left, i := batch, 0;
      ghost var db := Value();
      ghost var whole := ExpiredBatch(db, queues, cutoff, batch);
      assert queues[0..] == queues;
      while i < |queues|
        invariant 0 <= i <= |queues|
        invariant whole == result + ExpiredBatch(db, queues[i..], cutoff, left)
      {
        var ids := ReadExpired(queues[i], cutoff, left);
        ExpiredFrom(db, queues, i, cutoff, left, result);
        result := AppendPairs(result, queues[i], ids);
        left := left - |ids|;
        if left <= 0 {
          return;
        }
        i := i + 1;
      }
    }

    method ReadExpired(queue: Queue, cutoff: real, limit: int) returns (ids: seq<Id>)
      ensures ids == ExpiredIn(Value(), queue, cutoff, limit)
    {
      ids := RangeByScore(NonNegative(Lookup(zsets, Key(Active, queue))), AtMost(cutoff), limit);
    }
  }

  lemma AbsentFromKeys(db: Db, id: Id, queue: Queue, from: State, errorKeys: seq<Key>, keys: seq<Key>)
    requires errorKeys == if from.Error? then [] else [Key(Error, queue)]
    requires forall k :: k in keys <==> k.queue == queue && k.state != from
    ensures (forall k :: k in errorKeys ==> id !in db.Z(k)) <==> from.Error? || !db.Has(Error, queue, id)
    ensures (forall k :: k in keys ==> id !in db.Z(k)) <==> !Elsewhere(db, id, queue, from)
  {
    if !from.Error? { assert errorKeys[0] == Key(Error, queue); }
    if Elsewhere(db, id, queue, from) {
      var s: State :| s != from && db.Has(s, queue, id);
      assert Key(s, queue) in keys;
    } else {
      forall k | k in keys ensures id !in db.Z(k) { assert !db.Has(k.state, queue, id); }
    }
  }

  lemma LookupStored(zsets: map<Key, ZSet>, k: Key, z: ZSet, j: Key)
    ensures Lookup(Stored(zsets, k, z), j) == if j == k then z else Lookup(zsets, j)
  {}

  lemma StoredSame(zsets: map<Key, ZSet>, k: Key)
    requires forall j :: j in zsets ==> zsets[j] != map[]
    ensures Stored(zsets, k, Lookup(zsets, k)) == zsets
  {}

  lemma ExpiredFrom(db: Db, queues: seq<Queue>, i: nat, cutoff: real, batch: int, done: seq<(Queue, Id)>)
    requires i < |queues|
    ensures var ids := ExpiredIn(db, queues[i], cutoff, batch);
            done + ExpiredBatch(db, queues[i..], cutoff, batch)
            == if batch - |ids| <= 0 then done + Pairs(queues[i], ids)
               else done + Pairs(queues[i], ids)
                    + ExpiredBatch(db, queues[i + 1..], cutoff, batch - |ids|)
  {
    assert queues[i..][1..] == queues[i + 1..];
  }

  lemma {:induction false} FreshAppend(members: seq<Id>, x: Id, destination: ZSet)
    ensures Fresh(members + [x], destination)
         == Fresh(members, destination) + if x in destination then [] else [x]
  {
    if members != [] {
      assert (members + [x])[1..] == members[1..] + [x];
      FreshAppend(members[1..], x, destination);
    }
  }

  lemma LoweredAgain(z: ZSet, ids: seq<Id>, x: Id, score: real)
    ensures Added(Lowered(z, Elements(ids), score), score, x, Min)
         == Lowered(z, Elements(ids + [x]), score)
  {
    assert Elements(ids + [x]) == Elements(ids) + {x};
  }
}
