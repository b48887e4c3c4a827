/** What the expired-task script lists. */
module ExpiryLaws {
  import opened SortedSets
  import opened Wrappers
  import opened TaskDb
  import opened ScriptLaws

  /** A task has expired when its last heartbeat is not later than `cutoff`. */
  predicate Expired(db: Db, cutoff: real, queue: Queue, x: Id) {
    var z := db.Z(Key(Active, queue));
    x in z && 0.0 <= z[x] <= cutoff
  }

  lemma ExpiredInIsExpired(db: Db, queue: Queue, cutoff: real, limit: int)
    ensures NoRepeats(ExpiredIn(db, queue, cutoff, limit))
    ensures forall x :: x in ExpiredIn(db, queue, cutoff, limit) ==> Expired(db, cutoff, queue, x)
  {
    var z := NonNegative(db.Z(Key(Active, queue)));
    RangeIsRanks(z, AtMost(cutoff), limit);
    RangeMatchesRemoval(z, AtMost(cutoff), limit);
  }

  /** Only expired tasks of the given queues are listed, and none twice. */
  lemma {:induction false} BatchIsExpired(db: Db, queues: seq<Queue>, cutoff: real, batch: int)
    requires NoRepeats(queues)
    ensures var result := ExpiredBatch(db, queues, cutoff, batch);
            && (forall e :: e in result ==> e.0 in queues && Expired(db, cutoff, e.0, e.1))
            && NoRepeats(result)
  {
    if queues != [] {
      var ids := ExpiredIn(db, queues[0], cutoff, batch);
      ExpiredInIsExpired(db, queues[0], cutoff, batch);
      TailOf(queues);
      if batch - |ids| <= 0 {
        JoinBatches(db, cutoff, queues[0], ids, queues[1..], []);
        assert Pairs(queues[0], ids) + [] == Pairs(queues[0], ids);
      } else {
        BatchIsExpired(db, queues[1..], cutoff, batch - |ids|);
        JoinBatches(db, cutoff, queues[0], ids, queues[1..],
                    ExpiredBatch(db, queues[1..], cutoff, batch - |ids|));
      }
    }
  }

  lemma JoinBatches(db: Db, cutoff: real, queue: Queue, ids: seq<Id>, tail: seq<Queue>, rest: seq<(Queue, Id)>)
    requires NoRepeats(ids) && forall x :: x in ids ==> Expired(db, cutoff, queue, x)
    requires queue !in tail
    requires NoRepeats(rest) && forall e :: e in rest ==> e.0 in tail && Expired(db, cutoff, e.0, e.1)
    ensures var all := Pairs(queue, ids) + rest;
            && (forall e :: e in all ==> e.0 in [queue] + tail && Expired(db, cutoff, e.0, e.1))
            && NoRepeats(all)
  {
    PairsOf(queue, ids);
    forall e | e in Pairs(queue, ids) + rest
      ensures e.0 in [queue] + tail && Expired(db, cutoff, e.0, e.1)
    {
      if e in Pairs(queue, ids) { assert ([queue] + tail)[0] == e.0; }
    }
    ConcatenationNoRepeats(Pairs(queue, ids), rest);
  }

  lemma PairsOf(queue: Queue, ids: seq<Id>)
    requires NoRepeats(ids)
    ensures NoRepeats(Pairs(queue, ids))
    ensures forall e :: e in Pairs(queue, ids) ==> e.0 == queue && e.1 in ids
    ensures forall x :: x in ids ==> (queue, x) in Pairs(queue, ids)
  {
    var pairs := Pairs(queue, ids);
    assert forall i :: 0 <= i < |pairs| ==> pairs[i] == (queue, ids[i]);
    forall x | x in ids ensures (queue, x) in pairs {
      var i :| 0 <= i < |ids| && ids[i] == x;
      assert pairs[i] == (queue, x);
    }
    forall i, j | 0 <= i < j < |pairs| ensures pairs[i] != pairs[j] {
      assert ids[i] != ids[j];
    }
  }

  lemma ConcatenationNoRepeats<T>(a: seq<T>, b: seq<T>)
    requires NoRepeats(a) && NoRepeats(b) && forall x :: x in a ==> x !in b
    ensures NoRepeats(a + b)
  {
    forall i, j | 0 <= i < j < |a + b| ensures (a + b)[i] != (a + b)[j] {
      if i < |a| <= j { assert a[i] in a && b[j - |a|] in b; }
    }
  }

  // ---- completeness --------------------------------------------------------------------------

  function ExpiredIds(db: Db, cutoff: real, queue: Queue): set<Id> {
    set x | x in db.Z(Key(Active, queue)) && Expired(db, cutoff, queue, x)
  }

  function Tagged(q: Queue, ids: set<Id>): set<(Queue, Id)> {
    set x | x in ids :: (q, x)
  }

  function ExpiredAmong(db: Db, cutoff: real, queues: seq<Queue>): set<(Queue, Id)> {
    set q, x | q in queues && x in ExpiredIds(db, cutoff, q) :: (q, x)
  }

  lemma ExpiredInCounts(db: Db, queue: Queue, cutoff: real, limit: int)
    ensures |ExpiredIn(db, queue, cutoff, limit)| == Cap(limit, |ExpiredIds(db, cutoff, queue)|)
  {
    var z := NonNegative(db.Z(Key(Active, queue)));
    RangeIsRanks(z, AtMost(cutoff), limit);
    assert Eligible(z, AtMost(cutoff)) == ExpiredIds(db, cutoff, queue);
  }

  lemma ExpiredSplit(db: Db, cutoff: real, queues: seq<Queue>)
    requires queues != [] && NoRepeats(queues)
    ensures |ExpiredAmong(db, cutoff, queues)|
         == |ExpiredIds(db, cutoff, queues[0])| + |ExpiredAmong(db, cutoff, queues[1..])|
  {
    TailOf(queues);
    var q, mine := queues[0], ExpiredIds(db, cutoff, queues[0]);
    TaggedSize(q, mine);
    var rest := ExpiredAmong(db, cutoff, queues[1..]);
    forall e ensures e in ExpiredAmong(db, cutoff, queues) <==> e in Tagged(q, mine) + rest {
      assert e == (e.0, e.1);
    }
    assert ExpiredAmong(db, cutoff, queues) == Tagged(q, mine) + rest;
    assert Tagged(q, mine) !! rest;
  }

  lemma {:induction false} TaggedSize(q: Queue, ids: set<Id>)
    ensures |Tagged(q, ids)| == |ids|
  {
    if ids != {} {
      var y :| y in ids;
      TaggedSize(q, ids - {y});
      assert Tagged(q, ids) == Tagged(q, ids - {y}) + {(q, y)};
    }
  }

  /** The script lists min(batch, expired) tasks. */
  lemma {:induction false} BatchSize(db: Db, queues: seq<Queue>, cutoff: real, batch: int)
    requires NoRepeats(queues) && batch >= 0
    ensures |ExpiredBatch(db, queues, cutoff, batch)| == Cap(batch, |ExpiredAmong(db, cutoff, queues)|)
  {
    if queues == [] {
      assert ExpiredAmong(db, cutoff, []) == {};
    } else {
      var ids := ExpiredIn(db, queues[0], cutoff, batch);
      ExpiredInCounts(db, queues[0], cutoff, batch);
      ExpiredSplit(db, cutoff, queues);
      TailOf(queues);
      if batch - |ids| > 0 {
        BatchSize(db, queues[1..], cutoff, batch - |ids|);
      }
    }
  }

  /** Every expired task of the store. */
  function ExpiredAll(db: Db, cutoff: real): set<(Queue, Id)> {
    set k, x | k in db.zsets && k.state.Active? && x in db.zsets[k] && 0.0 <= db.zsets[k][x] <= cutoff
      :: (k.queue, x)
  }

  lemma ExpiredAllMembers(db: Db, cutoff: real)
    ensures forall q, x: Id :: (q, x) in ExpiredAll(db, cutoff) <==> Expired(db, cutoff, q, x)
  {
    forall q, x: Id ensures (q, x) in ExpiredAll(db, cutoff) <==> Expired(db, cutoff, q, x) {
      if Expired(db, cutoff, q, x) { assert Key(Active, q) in db.zsets; }
    }
  }

  /** Completeness: when the index sets agree the script lists min(batch, all expired tasks), all
  of them expired and none twice, so a batch that is not full has found every one. */
  lemma ListingIsComplete(db: Db, queues: seq<Queue>, cutoff: real, batch: int)
    requires IndexAgrees(db) && ListsActive(db, queues) && batch >= 0
    ensures var result, all := ExpiredBatch(db, queues, cutoff, batch), ExpiredAll(db, cutoff);
            && NoRepeats(result)
            && (forall e :: e in result ==> e in all)
            && |result| == Cap(batch, |all|)
            && (|result| < batch ==> forall e :: e in all ==> e in result)
  {
    var result := ExpiredBatch(db, queues, cutoff, batch);
    BatchIsExpired(db, queues, cutoff, batch);
    BatchSize(db, queues, cutoff, batch);
    AllAmongListed(db, queues, cutoff);
    ExpiredAllMembers(db, cutoff);
    DistinctCardinality(result);
    var listed := set e | e in result;
    assert listed <= ExpiredAll(db, cutoff);
    SubsetCardinality(listed, ExpiredAll(db, cutoff));
  }

  lemma AllAmongListed(db: Db, queues: seq<Queue>, cutoff: real)
    requires IndexAgrees(db) && ListsActive(db, queues)
    ensures ExpiredAll(db, cutoff) == ExpiredAmong(db, cutoff, queues)
  {
    ExpiredAllMembers(db, cutoff);
    forall q, x | Expired(db, cutoff, q, x) ensures q in queues {
      assert x in db.Z(Key(Active, q));
      assert Key(Active, q) in db.index;
    }
    forall e ensures e in ExpiredAll(db, cutoff) <==> e in ExpiredAmong(db, cutoff, queues) {
      assert e == (e.0, e.1);
    }
  }

  // ---- draining --------------------------------------------------------------------------------

  /** The pass can deal with a listed task that has no record, or that has its own record and a
  score other than 0. */
  predicate Handled(db: Db, queue: Queue, x: Id) {
    x in db.records ==> db.records[x].id == x && db.Has(Active, queue, x) && db.Z(Key(Active, queue))[x] != 0.0
  }

  /** Those are exactly the active tasks that it takes out of ACTIVE. */
  lemma HandledTasksLeave(db: Db, queue: Queue, x: Id, now: real)
    requires db.Has(Active, queue, x)
    ensures var r := ExpireOne(db, queue, x, now);
            r.Ok? && (r.value.Has(Active, queue, x) <==> !Handled(db, queue, x))
  {
    var id := if x in db.records then db.records[x].id else x;
    var (to, unique, mode) := ExpiryMove(db, x);
    if db.Has(Active, queue, id) {
      MoveMembers(db, id, queue, Active, to, unique, now, mode);
    }
  }

  function ExpiryMove(db: Db, x: Id): (Option<State>, bool, Mode) {
    if x !in db.records then (None, false, Plain)
    else if ShouldRetryOn(db.records[x], JOB_TIMEOUT) then (Some(Queued), db.records[x].unique, Nx)
    else (Some(Error), db.records[x].unique, Plain)
  }

  lemma ExpireOneIsMove(db: Db, queue: Queue, x: Id, now: real)
    requires db.Has(Active, queue, x) && Handled(db, queue, x)
    ensures var (to, unique, mode) := ExpiryMove(db, x);
            ExpireOne(db, queue, x, now) == Move(db, x, queue, Active, to, unique, now, mode)
  {}

  lemma MovedIsNotExpired(db: Db, queue: Queue, x: Id, to: Option<State>, unique: bool, now: real,
                          mode: Mode, cutoff: real)
    requires MoveMode(mode) && to != Some(Active) && IndexAgrees(db) && db.Has(Active, queue, x)
    ensures var r := Move(db, x, queue, Active, to, unique, now, mode);
            && r.Ok? && IndexAgrees(r.value)
            && ExpiredAll(r.value, cutoff) == ExpiredAll(db, cutoff) - {(queue, x)}
            && (forall q, y: Id :: (q, y) != (queue, x) && Handled(db, q, y) ==> Handled(r.value, q, y))
  {
    var after := Move(db, x, queue, Active, to, unique, now, mode).value;
    MoveMembers(db, x, queue, Active, to, unique, now, mode);
    MoveKeepsIndex(db, x, queue, Active, to, unique, now, mode);
    ExpiredAllMembers(db, cutoff);
    ExpiredAllMembers(after, cutoff);
    forall q, y: Id ensures Expired(after, cutoff, q, y) <==> Expired(db, cutoff, q, y) && (q, y) != (queue, x) {
      if q != queue { assert after.Z(Key(Active, q)) == db.Z(Key(Active, q)); }
    }
    forall e ensures e in ExpiredAll(after, cutoff) <==> e in ExpiredAll(db, cutoff) - {(queue, x)} {
      assert e == (e.0, e.1);
    }
    assert forall y :: y in after.records ==> y in db.records && after.records[y] == db.records[y];
    forall q, y: Id | (q, y) != (queue, x) && Handled(db, q, y) ensures Handled(after, q, y) {
      if q != queue { assert after.Z(Key(Active, q)) == db.Z(Key(Active, q)); }
    }
  }

  ghost predicate AllHandled(db: Db, todo: seq<(Queue, Id)>) {
    forall e :: e in todo ==> Handled(db, e.0, e.1)
  }

  ghost predicate AllActive(db: Db, todo: seq<(Queue, Id)>) {
    forall e :: e in todo ==> db.Has(Active, e.0, e.1)
  }

  ghost predicate StaysHandled(a: Db, b: Db, gone: seq<(Queue, Id)>) {
    forall q, y: Id :: (q, y) !in gone && Handled(a, q, y) ==> Handled(b, q, y)
  }

  lemma ExpireFirst(db: Db, todo: seq<(Queue, Id)>, now: real, cutoff: real)
    requires todo != [] && IndexAgrees(db) && NoRepeats(todo) && AllHandled(db, todo) && AllActive(db, todo)
    ensures var r := ExpireOne(db, todo[0].0, todo[0].1, now);
            && r.Ok? && IndexAgrees(r.value)
            && ExpiredAll(r.value, cutoff) == ExpiredAll(db, cutoff) - {todo[0]}
            && StaysHandled(db, r.value, [todo[0]])
            && AllHandled(r.value, todo[1..]) && AllActive(r.value, todo[1..])
  {
    var (queue, x) := todo[0];
    TailOf(todo);
    assert todo[0] in todo && todo[0] == (queue, x);
    var (to, unique, mode) := ExpiryMove(db, x);
    ExpireOneIsMove(db, queue, x, now);
    MovedIsNotExpired(db, queue, x, to, unique, now, mode, cutoff);
    var after := ExpireOne(db, queue, x, now).value;
    MoveMembers(db, x, queue, Active, to, unique, now, mode);
    forall e | e in todo[1..] ensures Handled(after, e.0, e.1) && after.Has(Active, e.0, e.1) {
      assert e in todo && e == (e.0, e.1) && e != todo[0];
    }
  }

  /** `after` is what a pass over `todo` leaves of `db`. */
  ghost predicate PassedOver(db: Db, after: Db, todo: seq<(Queue, Id)>, cutoff: real) {
    && IndexAgrees(after)
    && ExpiredAll(after, cutoff) == ExpiredAll(db, cutoff) - (set e | e in todo)
    && StaysHandled(db, after, todo)
  }

  lemma PassedOverMore(db: Db, next: Db, after: Db, todo: seq<(Queue, Id)>, cutoff: real)
    requires todo != [] && StaysHandled(db, next, [todo[0]])
    requires ExpiredAll(next, cutoff) == ExpiredAll(db, cutoff) - {todo[0]}
    requires PassedOver(next, after, todo[1..], cutoff)
    ensures PassedOver(db, after, todo, cutoff)
  {
    assert todo == [todo[0]] + todo[1..];
    assert (set e | e in todo) == {todo[0]} + (set e | e in todo[1..]);
  }

  lemma {:induction false} RequeuedDrains(db: Db, todo: seq<(Queue, Id)>, now: real, cutoff: real)
    requires IndexAgrees(db) && NoRepeats(todo) && AllHandled(db, todo) && AllActive(db, todo)
    ensures PassedOver(db, Requeued(db, todo, now), todo, cutoff)
    decreases |todo|
  {
    if todo != [] {
      ExpireFirst(db, todo, now, cutoff);
      TailOf(todo);
      var next := ExpireOne(db, todo[0].0, todo[0].1, now).value;
      RequeuedDrains(next, todo[1..], now, cutoff);
      PassedOverMore(db, next, Requeued(next, todo[1..], now), todo, cutoff);
    }
  }

  /** One undisturbed pass of the worker. */
  ghost predicate IsPass(before: Db, after: Db, cutoff: real, batch: int) {
    exists queues, now :: ListsActive(before, queues)
      && after == Requeued(before, ExpiredBatch(before, queues, cutoff, batch), now)
  }

  /** Every expired task of the store can be dealt with. */
  ghost predicate ExpiredHandled(db: Db, cutoff: real) {
    forall e :: e in ExpiredAll(db, cutoff) ==> Handled(db, e.0, e.1)
  }

  lemma ExpiredAllGrows(db: Db, a: real, b: real)
    requires a <= b
    ensures ExpiredAll(db, a) <= ExpiredAll(db, b)
  {
    ExpiredAllMembers(db, a);
    ExpiredAllMembers(db, b);
    forall e | e in ExpiredAll(db, a) ensures e in ExpiredAll(db, b) {
      assert e == (e.0, e.1);
    }
  }

  /** Of all that is expired at some cutoff, exactly `taken` is gone. */
  ghost predicate TakesOnly(before: Db, after: Db, taken: set<(Queue, Id)>) {
    && IndexAgrees(after)
    && (forall c :: ExpiredAll(after, c) == ExpiredAll(before, c) - taken)
    && (forall e :: e !in taken && Handled(before, e.0, e.1) ==> Handled(after, e.0, e.1))
  }

  lemma RequeuedTakesOnly(db: Db, todo: seq<(Queue, Id)>, now: real)
    requires IndexAgrees(db) && NoRepeats(todo) && AllHandled(db, todo) && AllActive(db, todo)
    ensures TakesOnly(db, Requeued(db, todo, now), set e | e in todo)
  {
    var after, taken := Requeued(db, todo, now), set e | e in todo;
    RequeuedDrains(db, todo, now, 0.0);
    forall c ensures ExpiredAll(after, c) == ExpiredAll(db, c) - taken {
      RequeuedDrains(db, todo, now, c);
    }
    forall e | e !in taken && Handled(db, e.0, e.1) ensures Handled(after, e.0, e.1) {
      assert e == (e.0, e.1);
    }
  }

  lemma ListedCanBeTaken(db: Db, queues: seq<Queue>, cutoff: real, batch: int)
    requires IndexAgrees(db) && ListsActive(db, queues) && ExpiredHandled(db, cutoff) && batch >= 0
    ensures var todo := ExpiredBatch(db, queues, cutoff, batch);
            && NoRepeats(todo) && AllHandled(db, todo) && AllActive(db, todo)
            && (set e | e in todo) <= ExpiredAll(db, cutoff)
            && |set e | e in todo| == Cap(batch, |ExpiredAll(db, cutoff)|)
  {
    var todo := ExpiredBatch(db, queues, cutoff, batch);
    ListingIsComplete(db, queues, cutoff, batch);
    DistinctCardinality(todo);
    ListedAreActive(db, todo, cutoff);
  }

  /** A pass takes min(batch, expired) expired tasks out of the active sets, and does nothing else to
  what is expired at any other cutoff. */
  lemma PassTakesListed(before: Db, after: Db, cutoff: real, batch: int) returns (taken: set<(Queue, Id)>)
    requires IndexAgrees(before) && ExpiredHandled(before, cutoff) && batch >= 0
    requires IsPass(before, after, cutoff, batch)
    ensures TakesOnly(before, after, taken)
    ensures taken <= ExpiredAll(before, cutoff) && |taken| == Cap(batch, |ExpiredAll(before, cutoff)|)
  {
    var queues, now :| ListsActive(before, queues)
      && after == Requeued(before, ExpiredBatch(before, queues, cutoff, batch), now);
    var todo := ExpiredBatch(before, queues, cutoff, batch);
    ListedCanBeTaken(before, queues, cutoff, batch);
    RequeuedTakesOnly(before, todo, now);
    taken := set e | e in todo;
  }

  lemma ListedAreActive(db: Db, todo: seq<(Queue, Id)>, cutoff: real)
    requires forall e :: e in todo ==> e in ExpiredAll(db, cutoff)
    ensures AllActive(db, todo)
  {
    ExpiredAllMembers(db, cutoff);
    forall e | e in todo ensures db.Has(Active, e.0, e.1) {
      assert e == (e.0, e.1);
    }
  }

  /** One pass shrinks the set of tasks that are expired at its own or a later cutoff by
  min(batch, expired at its own), and adds to none. */
  lemma PassDrains(before: Db, after: Db, cutoff: real, top: real, batch: int)
    requires IndexAgrees(before) && ExpiredHandled(before, top) && cutoff <= top && batch >= 0
    requires IsPass(before, after, cutoff, batch)
    ensures IndexAgrees(after) && ExpiredHandled(after, top)
    ensures forall c :: ExpiredAll(after, c) <= ExpiredAll(before, c)
    ensures |ExpiredAll(after, top)| == |ExpiredAll(before, top)| - Cap(batch, |ExpiredAll(before, cutoff)|)
    ensures |ExpiredAll(before, cutoff)| <= batch ==> ExpiredAll(after, cutoff) == {}
  {
    ExpiredAllGrows(before, cutoff, top);
    var taken := PassTakesListed(before, after, cutoff, batch);
    SubsetCardinality(taken, ExpiredAll(before, top));
    SubsetCardinality(taken, ExpiredAll(before, cutoff));
  }

  /** Passes whose cutoffs lie between `low` and `top`, as they do when the clock moves on. */
  ghost predicate ArePasses(dbs: seq<Db>, cutoffs: seq<real>, low: real, top: real, batch: int, n: nat) {
    && n < |dbs| && n <= |cutoffs|
    && forall i :: 0 <= i < n ==> low <= cutoffs[i] <= top && IsPass(dbs[i], dbs[i + 1], cutoffs[i], batch)
  }

  /** Repeated passes with a positive batch size empty the expired set: each takes a whole batch until
  what had expired at the first cutoff is gone. So ceil(total / batch) passes are enough for
  everything that expires up to the last cutoff; for one cutoff the number left is exact. */
  lemma {:induction false} PassesDrain(dbs: seq<Db>, cutoffs: seq<real>, low: real, top: real, batch: int, n: nat)
    requires batch > 0 && ArePasses(dbs, cutoffs, low, top, batch, n)
    requires IndexAgrees(dbs[0]) && ExpiredHandled(dbs[0], top)
    ensures IndexAgrees(dbs[n]) && ExpiredHandled(dbs[n], top)
    ensures var total, left := |ExpiredAll(dbs[0], top)|, |ExpiredAll(dbs[n], top)|;
            && left >= total - n * batch
            && (ExpiredAll(dbs[n], low) == {} || left == total - n * batch)
            && (low <= top && total <= n * batch ==> ExpiredAll(dbs[n], low) == {})
            && (low == top ==> left == if total <= n * batch then 0 else total - n * batch)
  {
    if n > 0 {
      PassesDrain(dbs, cutoffs, low, top, batch, n - 1);
      var before, after, cutoff := dbs[n - 1], dbs[n - 1 + 1], cutoffs[n - 1];
      assert IsPass(before, after, cutoff, batch);
      PassDrains(before, after, cutoff, top, batch);
      ExpiredAllGrows(after, low, cutoff);
      assert n * batch == (n - 1) * batch + batch;
    }
    if low <= top { ExpiredAllGrows(dbs[n], low, top); }
  }
}
