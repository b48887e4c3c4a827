/** The invariant of the protocol and the proof that every step keeps it, given that live
workers refresh the ids they hold in time. */
module Invariants {
  import opened SortedSets
  import opened Wrappers
  import opened TaskDb
  import opened ScriptLaws
  import opened Protocol

  /** The record of an id is the one its latest `delay` wrote; only `scheduledAt` may differ. */
  predicate Current(p: Params, db: Db, ledger: Ledger, x: Id) {
    && x in ledger.delayed && x in db.records && x in ledger.latest
    && Fits(p, x, db.records[x])
    && db.records[x] == ledger.latest[x].(scheduledAt := db.records[x].scheduledAt)
  }

  ghost predicate IdOk(p: Params, db: Db, ledger: Ledger, x: Id) {
    && (forall k :: x in db.Z(k) ==> k.queue == p.home(x) && Current(p, db, ledger, x))
    && (!p.unique(x) ==> forall j, k :: x in db.Z(j) && x in db.Z(k) ==> j == k)
    && (forall k: Key :: k.state.Active? && x in db.Z(k) ==> db.Z(k)[x] > 0.0)
  }

  ghost predicate IdsOk(p: Params, db: Db, ledger: Ledger) {
    forall x :: IdOk(p, db, ledger, x)
  }

  predicate ProgressOk(p: Params, x: Id, progress: Progress) {
    && !progress.Broken?
    && (progress.Loaded? || progress.Running? ==> Fits(p, x, progress.record))
  }

  /** A held id is active, and its worker knows its true record. */
  ghost predicate TaskOk(p: Params, db: Db, work: Work, x: Id)
    requires x in work.tasks
  {
    work.queue == p.home(x) && db.Has(Active, p.home(x), x) && ProgressOk(p, x, work.tasks[x])
  }

  ghost predicate WorkersOk(p: Params, db: Db, workers: map<WorkerId, Work>) {
    && (forall w, x :: w in workers && x in workers[w].tasks ==> TaskOk(p, db, workers[w], x))
    && (forall v, w, x :: v in workers && w in workers && x in workers[v].tasks && x in workers[w].tasks
          ==> v == w)
  }

  ghost predicate Abandoned(p: Params, db: Db, workers: map<WorkerId, Work>, queue: Queue, x: Id) {
    && queue == p.home(x) && db.Has(Active, queue, x)
    && forall w :: w in workers ==> x !in workers[w].tasks
  }

  ghost predicate PassOk(p: Params, db: Db, workers: map<WorkerId, Work>, pass: Option<Pass>) {
    pass.Some? ==>
      var Pass(_, todo, probe) := pass.value;
      && (forall i :: 0 <= i < |todo| ==> Abandoned(p, db, workers, todo[i].0, todo[i].1))
      && (forall i, j :: 0 <= i < j < |todo| ==> todo[i].1 != todo[j].1)
      && !probe.Missing? && !probe.Gone?
      && (probe.Found? ==> todo != [] && Fits(p, todo[0].1, probe.record))
  }

  ghost predicate Inv(p: Params, s: Sys) {
    && IndexAgrees(s.db)
    && IdsOk(p, s.db, s.ledger)
    && WorkersOk(p, s.db, s.workers)
    && PassOk(p, s.db, s.workers, s.pass)
  }

  /** The timing premise: a live worker refreshes every id it holds before it expires. */
  ghost predicate Timely(p: Params, s: Sys) {
    forall w, x :: w in s.workers && x in s.workers[w].tasks && s.db.Has(Active, p.home(x), x) ==>
      s.clock < s.db.Z(Key(Active, p.home(x)))[x] + p.timeout
  }

  // ---- frames ----------------------------------------------------------------------------

  /** Nothing that is stored about `x` differs between `a` and `b`. */
  ghost predicate SameId(a: Db, b: Db, x: Id) {
    && (forall k :: x in a.Z(k) <==> x in b.Z(k))
    && (forall k :: x in a.Z(k) ==> a.Z(k)[x] == b.Z(k)[x])
    && (x in a.records <==> x in b.records)
    && (x in a.records ==> a.records[x] == b.records[x])
  }

  predicate SameLedger(a: Ledger, b: Ledger, x: Id) {
    && (x in a.delayed ==> x in b.delayed)
    && (x in a.latest ==> x in b.latest && a.latest[x] == b.latest[x])
  }

  lemma SameIdOk(p: Params, a: Db, b: Db, l: Ledger, m: Ledger, x: Id)
    requires IdOk(p, a, l, x) && SameId(a, b, x) && SameLedger(l, m, x)
    ensures IdOk(p, b, m, x)
  {}

  /** Workers and the pass depend on the store through the active ids only. */
  lemma ActiveFrame(p: Params, a: Db, b: Db, workers: map<WorkerId, Work>, pass: Option<Pass>)
    requires WorkersOk(p, a, workers) && PassOk(p, a, workers, pass)
    requires forall q, x :: a.Has(Active, q, x) ==> b.Has(Active, q, x)
    ensures WorkersOk(p, b, workers) && PassOk(p, b, workers, pass)
  {
    forall w, x | w in workers && x in workers[w].tasks ensures TaskOk(p, b, workers[w], x) {
      assert TaskOk(p, a, workers[w], x);
    }
    if pass.Some? {
      var todo := pass.value.todo;
      forall i | 0 <= i < |todo| ensures Abandoned(p, b, workers, todo[i].0, todo[i].1) {
        assert Abandoned(p, a, workers, todo[i].0, todo[i].1);
      }
    }
  }

  // ---- moves -----------------------------------------------------------------------------

  /** A move leaves every other id alone. */
  lemma MoveFrame(db: Db, id: Id, queue: Queue, from: State, to: Option<State>, unique: bool,
                  when: real, mode: Mode, x: Id)
    requires MoveMode(mode) && to != Some(from) && db.Has(from, queue, id) && x != id
    ensures SameId(db, Move(db, id, queue, from, to, unique, when, mode).value, x)
  {
    var r := Move(db, id, queue, from, to, unique, when, mode).value;
    MoveMembers(db, id, queue, from, to, unique, when, mode);
    MoveDeletes(db, id, queue, from, to, unique, when, mode);
    if to.Some? { AddedHasMember(db.Z(Key(to.value, queue)), when, id, mode); }
    forall k ensures x in db.Z(k) <==> x in r.Z(k)
             ensures x in db.Z(k) ==> db.Z(k)[x] == r.Z(k)[x] {}
  }

  /** A move that does not activate keeps what holds of the moved id: if the record went, the id
  is in no sorted set any more. */
  lemma MoveKeepsId(p: Params, db: Db, ledger: Ledger, id: Id, from: State, to: Option<State>,
                    when: real, mode: Mode)
    requires MoveMode(mode) && to != Some(from) && to != Some(Active) && db.Has(from, p.home(id), id)
    requires IdOk(p, db, ledger, id)
    ensures IdOk(p, Move(db, id, p.home(id), from, to, p.unique(id), when, mode).value, ledger, id)
  {
    var q := p.home(id);
    var r := Move(db, id, q, from, to, p.unique(id), when, mode).value;
    MoveMembers(db, id, q, from, to, p.unique(id), when, mode);
    MoveDeletes(db, id, q, from, to, p.unique(id), when, mode);
    if to.Some? { AddedHasMember(db.Z(Key(to.value, q)), when, id, mode); }
    forall k | id in r.Z(k) ensures k.queue == q && Current(p, r, ledger, id) {
      if to != Some(k.state) || k.queue != q {
        assert id in db.Z(k) && k != Key(from, q);
        if to.None? { assert k.state != from && db.Has(k.state, q, id); }
      }
      assert id in db.Z(Key(from, q));
    }
    if !p.unique(id) {
      forall j, k | id in r.Z(j) && id in r.Z(k) ensures j == k {
        assert id in db.Z(Key(from, q));
      }
    }
    forall k: Key | k.state.Active? && id in r.Z(k) ensures r.Z(k)[id] > 0.0 {
      assert r.Z(k) == db.Z(k) || r.Z(k) == db.Z(k) - {id};
    }
  }

  lemma MoveKeepsIds(p: Params, db: Db, ledger: Ledger, id: Id, from: State, to: Option<State>,
                     when: real, mode: Mode)
    requires MoveMode(mode) && to != Some(from) && to != Some(Active) && db.Has(from, p.home(id), id)
    requires IdsOk(p, db, ledger)
    ensures IdsOk(p, Move(db, id, p.home(id), from, to, p.unique(id), when, mode).value, ledger)
  {
    var r := Move(db, id, p.home(id), from, to, p.unique(id), when, mode).value;
    forall x ensures IdOk(p, r, ledger, x) {
      if x == id {
        MoveKeepsId(p, db, ledger, id, from, to, when, mode);
      } else {
        MoveFrame(db, id, p.home(id), from, to, p.unique(id), when, mode, x);
        SameIdOk(p, db, r, ledger, ledger, x);
      }
    }
  }

  lemma LogIsNoMatter(p: Params, db: Db, ledger: Ledger, log: map<Id, seq<Execution>>,
                      starts: map<Id, nat>, first: map<Id, real>)
    requires IdsOk(p, db, ledger)
    ensures IdsOk(p, db, ledger.(log := log, starts := starts, firstFinish := first))
  {
    var m := ledger.(log := log, starts := starts, firstFinish := first);
    forall x ensures IdOk(p, db, m, x) {
      assert SameId(db, db, x);
      SameIdOk(p, db, db, ledger, m, x);
    }
  }
}
