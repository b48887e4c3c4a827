/** The queue semaphore: a sorted set of locks scored by the time they expire, with a time to
live for its key. */
module Semaphores {
  import opened Wrappers
  import SortedSets

  /** A lock belongs to a worker, or it is the system lock. */
  datatype Holder = System | Worker(id: nat)

  /** The stored key. `expiry` is the time at which Redis drops it; None means never. A key
  without locks does not exist. */
  datatype Sem = Sem(locks: map<Holder, real>, expiry: Option<real>)

  const NoKey := Sem(map[], None)

  /** What is left of the key at time `now`. */
  function At(s: Sem, now: real): Sem {
    if s.expiry.Some? && now >= s.expiry.value then NoKey else s
  }

  /** Redis drops the key, and with it the time to live, when the last lock goes. */
  function Kept(s: Sem, locks: map<Holder, real>): Sem {
    if locks == map[] then NoKey else Sem(locks, s.expiry)
  }

  /** ZREMRANGEBYSCORE key 0 now. */
  function Unexpired(locks: map<Holder, real>, now: real): map<Holder, real> {
    map h | h in locks && !(0.0 <= locks[h] <= now) :: locks[h]
  }

  /** EXPIRE, which has no effect on a key that does not exist. */
  function Expiring(s: Sem, expiry: real): Sem {
    if s.locks == map[] then s else s.(expiry := Some(expiry))
  }

  function Ceiling(x: real): int {
    -((-x).Floor)
  }

  datatype Answer = Answer(acquired: bool, locks: int)

  /** The locks that are left when the script has removed the expired ones. Callers pass `now`, a
  reading of their own clock; Redis drops keys by its clock. */
  function Cleaned(s0: Sem, now: real, clock: real): Sem {
    var s := At(s0, clock);
    Kept(s, Unexpired(s.locks, now))
  }

  /** A lock is granted unless it would be one too many; renewing a lock adds none. */
  function Grant(s: Sem, id: nat, size: nat, timeout: real, now: real): (Sem, Answer) {
    var wanted := if Worker(id) in s.locks then |s.locks| else |s.locks| + 1;
    if wanted > size then (s, Answer(false, |s.locks|))
    else (s.(locks := s.locks[Worker(id) := now + timeout]), Answer(true, wanted))
  }

  /** semaphore.lua. */
  function Acquire(s: Sem, id: nat, size: nat, timeout: real, now: real, clock: real): (Sem, Answer) {
    var live := Cleaned(s, now, clock);
    if System in live.locks then (live, Answer(false, -1))
    else Grant(Expiring(live, clock + Ceiling(timeout * 2.0) as real), id, size, timeout, now)
  }

  function Release(s0: Sem, id: nat, clock: real): Sem {
    var s := At(s0, clock);
    Kept(s, s.locks - {Worker(id)})
  }

  /** `set_system_lock`: the lock and a time to live that is 10 seconds longer. */
  function SetSystemLock(s0: Sem, timeout: int, now: real, clock: real): Sem {
    var s := At(s0, clock);
    Sem(s.locks[System := now + timeout as real], Some(clock + (timeout + 10) as real))
  }

  /** `Semaphore`: the key as it is updated in place, at time `clock` of the server, by callers that
  have read `now`. */
  class Semaphore {
    var locks: map<Holder, real>
    var expiry: Option<real>

    ghost function Value(): Sem
      reads this
    {
      Sem(locks, expiry)
    }

    constructor ()
      ensures Value() == NoKey
    {
      locks, expiry := map[], None;
    }

    /** Redis drops a key whose time to live is over before it serves a command. */
    method Elapse(clock: real)
      modifies this
      ensures Value() == At(old(Value()), clock)
    {
      if expiry.Some? && clock >= expiry.value {
        locks, expiry := map[], None;
      }
    }

    method Keep(kept: map<Holder, real>)
      modifies this
      ensures Value() == Kept(old(Value()), kept)
    {
      locks := kept;
      if kept == map[] {
        expiry := None;
      }
    }

    method TryAcquire(id: nat, size: nat, timeout: real, now: real, clock: real)
      returns (acquired: bool, count: int)
      modifies this
      ensures (Value(), Answer(acquired, count)) == Acquire(old(Value()), id, size, timeout, now, clock)
    {
      Elapse(clock);
      Keep(Unexpired(locks, now));
      if System in locks {
        return false, -1;
      }
      if locks != map[] {
        expiry := Some(clock + Ceiling(timeout * 2.0) as real);
      }
      var lockCount := |locks|;
      var current := lockCount;
      if Worker(id) !in locks {
        lockCount := lockCount + 1;
      }
      if lockCount > size {
        return false, current;
      }
      locks := locks[Worker(id) := now + timeout];
      return true, lockCount;
    }

    method ReleaseLock(id: nat, clock: real)
      modifies this
      ensures Value() == Release(old(Value()), id, clock)
    {
      Elapse(clock);
      Keep(locks - {Worker(id)});
    }

    method LockSystem(timeout: int, now: real, clock: real)
      modifies this
      ensures Value() == SetSystemLock(old(Value()), timeout, now, clock)
    {
      Elapse(clock);
      locks := locks[System := now + timeout as real];
      expiry := Some(clock + (timeout + 10) as real);
    }
  }

  // ---- one semaphore over time -----------------------------------------------------------

  function WorkerLocks(locks: map<Holder, real>): set<Holder> {
    set h | h in locks && h.Worker?
  }

  /** A semaphore whose callers use one size, and the clock of the server. `leases` are the workers
  between a successful acquire and their release, with the expiry each was last granted. */
  datatype Shop = Shop(sem: Sem, clock: real, leases: map<nat, real>)

  const Opening := Shop(NoKey, 0.0, map[])

  /** A caller reads its clock before the script is sent, so that scripts may arrive with old readings
  and in any order. */
  datatype Act =
    | Wait(now: real)
    | TryLock(id: nat, timeout: real, reading: real)
    | Unlock(id: nat)
    | LockAll(seconds: int, reading: real)

  /** No reading is ahead of the server. */
  predicate Possible(s: Shop, act: Act) {
    match act
    case Wait(now) => now >= s.clock
    case TryLock(_, _, reading) => reading <= s.clock
    case Unlock(id) => true
    case LockAll(_, reading) => reading <= s.clock
  }

  function Leased(leases: map<nat, real>, id: nat, acquired: bool, until: real): map<nat, real> {
    if acquired then leases[id := until] else leases
  }

  /** A worker that is refused stays inside if it was: a failed renewal is only logged. */
  function Perform(s: Shop, size: nat, act: Act): Shop {
    match act
    case Wait(now) => s.(clock := now)
    case TryLock(id, timeout, reading) =>
      var (sem, answer) := Acquire(s.sem, id, size, timeout, reading, s.clock);
      Shop(sem, s.clock, Leased(s.leases, id, answer.acquired, reading + timeout))
    case Unlock(id) => s.(sem := Release(s.sem, id, s.clock), leases := s.leases - {id})
    case LockAll(t, reading) => s.(sem := SetSystemLock(s.sem, t, reading, s.clock))
  }

  /** Workers use one timeout, and system timeouts are not more than 10 seconds shorter. */
  predicate Covered(timeout: real, act: Act) {
    match act
    case TryLock(_, t, _) => t == timeout
    case LockAll(t, _) => (t + 10) as real >= timeout
    case _ => true
  }

  ghost predicate Orderly(s: Shop, size: nat, timeout: real) {
    && s.clock >= 0.0
    // the bound
    && |WorkerLocks(s.sem.locks)| <= size
    // worker locks end within one timeout
    && (forall h :: h in s.sem.locks && h.Worker? ==> s.sem.locks[h] <= s.clock + timeout)
    // the key outlives its locks
    && (s.sem.expiry.Some? ==> forall h :: h in s.sem.locks ==> s.sem.locks[h] <= s.sem.expiry.value)
    // a key without locks does not exist
    && (s.sem.locks == map[] ==> s.sem.expiry.None?)
    // an unexpired lease is in the semaphore
    && (forall w :: w in s.leases && s.clock < s.leases[w] ==>
          Worker(w) in s.sem.locks && s.sem.locks[Worker(w)] == s.leases[w])
  }

  lemma CeilingIsAbove(x: real)
    ensures Ceiling(x) as real >= x
  {}

  lemma FewerLocks(a: map<Holder, real>, b: map<Holder, real>)
    requires forall h :: h in a ==> h in b
    ensures |WorkerLocks(a)| <= |WorkerLocks(b)|
  {
    assert WorkerLocks(b) == WorkerLocks(a) + (WorkerLocks(b) - WorkerLocks(a));
  }

  /** Dropping the key at its expiry loses no lock that is still running. */
  lemma ElapseKeepsOrder(s: Shop, size: nat, timeout: real)
    requires Orderly(s, size, timeout)
    ensures Orderly(s.(sem := At(s.sem, s.clock)), size, timeout)
    ensures forall h :: h in s.sem.locks && s.clock < s.sem.locks[h] ==>
              h in At(s.sem, s.clock).locks && At(s.sem, s.clock).locks[h] == s.sem.locks[h]
  {
    FewerLocks(At(s.sem, s.clock).locks, s.sem.locks);
  }

  lemma KeepingKeepsOrder(s: Shop, size: nat, timeout: real, kept: map<Holder, real>, gone: set<nat>)
    requires Orderly(s, size, timeout)
    requires forall h :: h in kept ==> h in s.sem.locks && kept[h] == s.sem.locks[h]
    requires forall h :: h in s.sem.locks && s.clock < s.sem.locks[h] && !(h.Worker? && h.id in gone) ==> h in kept
    ensures Orderly(s.(sem := Kept(s.sem, kept), leases := s.leases - gone), size, timeout)
  {
    FewerLocks(kept, s.sem.locks);
  }

  lemma TimedKeepsOrder(s: Shop, size: nat, timeout: real)
    requires Orderly(s, size, timeout) && timeout > 0.0 && System !in s.sem.locks
    ensures Orderly(s.(sem := Expiring(s.sem, s.clock + Ceiling(timeout * 2.0) as real)), size, timeout)
  {
    CeilingIsAbove(timeout * 2.0);
  }

  lemma AddedLockSize(locks: map<Holder, real>, id: nat, score: real)
    requires System !in locks
    ensures |WorkerLocks(locks[Worker(id) := score])| == if Worker(id) in locks then |locks| else |locks| + 1
  {
    assert forall h :: h in locks ==> h.Worker?;
    assert WorkerLocks(locks[Worker(id) := score]) == locks.Keys + {Worker(id)};
    if Worker(id) in locks { assert locks.Keys + {Worker(id)} == locks.Keys; }
  }

  lemma NewLockKeepsOrder(s: Shop, size: nat, timeout: real, id: nat, now: real)
    requires Orderly(s, size, timeout) && timeout > 0.0 && System !in s.sem.locks && now <= s.clock
    requires s.sem.expiry.Some? ==> s.sem.expiry.value >= s.clock + timeout
    requires |WorkerLocks(s.sem.locks[Worker(id) := now + timeout])| <= size
    ensures Orderly(s.(sem := s.sem.(locks := s.sem.locks[Worker(id) := now + timeout]),
                       leases := s.leases[id := now + timeout]), size, timeout)
  {}

  lemma CleanedKeepsOrder(s: Shop, size: nat, timeout: real, now: real)
    requires Orderly(s, size, timeout) && now <= s.clock
    ensures Orderly(s.(sem := Cleaned(s.sem, now, s.clock)), size, timeout)
  {
    var s1 := s.(sem := At(s.sem, s.clock));
    ElapseKeepsOrder(s, size, timeout);
    KeepingKeepsOrder(s1, size, timeout, Unexpired(s1.sem.locks, now), {});
    assert s1.leases - {} == s1.leases;
  }

  lemma GrantKeepsOrder(s: Shop, size: nat, timeout: real, id: nat, now: real)
    requires Orderly(s, size, timeout) && timeout > 0.0 && System !in s.sem.locks && now <= s.clock
    requires s.sem.expiry.Some? ==> s.sem.expiry.value >= s.clock + timeout
    ensures var (sem, answer) := Grant(s.sem, id, size, timeout, now);
            Orderly(Shop(sem, s.clock, Leased(s.leases, id, answer.acquired, now + timeout)), size, timeout)
  {
    AddedLockSize(s.sem.locks, id, now + timeout);
    if Grant(s.sem, id, size, timeout, now).1.acquired {
      NewLockKeepsOrder(s, size, timeout, id, now);
    }
  }

  lemma TimedIsLong(s: Sem, timeout: real, clock: real)
    requires timeout > 0.0 && (s.locks == map[] ==> s.expiry.None?)
    ensures var e := Expiring(s, clock + Ceiling(timeout * 2.0) as real).expiry;
            e.Some? ==> e.value >= clock + timeout
  {
    CeilingIsAbove(timeout * 2.0);
  }

  lemma AcquireKeepsOrder(s: Shop, size: nat, timeout: real, id: nat, now: real)
    requires Orderly(s, size, timeout) && timeout > 0.0 && now <= s.clock
    ensures Orderly(Perform(s, size, TryLock(id, timeout, now)), size, timeout)
  {
    var live := Cleaned(s.sem, now, s.clock);
    CleanedKeepsOrder(s, size, timeout, now);
    if System !in live.locks {
      TimedGrantKeepsOrder(s, live, size, timeout, id, now);
    }
  }

  lemma TimedGrantKeepsOrder(s: Shop, live: Sem, size: nat, timeout: real, id: nat, now: real)
    requires Orderly(s.(sem := live), size, timeout) && timeout > 0.0 && System !in live.locks && now <= s.clock
    ensures var timed := Expiring(live, s.clock + Ceiling(timeout * 2.0) as real);
            var (sem, answer) := Grant(timed, id, size, timeout, now);
            Orderly(Shop(sem, s.clock, Leased(s.leases, id, answer.acquired, now + timeout)), size, timeout)
  {
    TimedKeepsOrder(s.(sem := live), size, timeout);
    TimedIsLong(live, timeout, s.clock);
    GrantKeepsOrder(s.(sem := Expiring(live, s.clock + Ceiling(timeout * 2.0) as real)), size, timeout, id, now);
  }

  lemma SystemLockKeepsOrder(s: Shop, size: nat, timeout: real, t: int, now: real)
    requires Orderly(s, size, timeout) && timeout > 0.0 && (t + 10) as real >= timeout && now <= s.clock
    ensures Orderly(Perform(s, size, LockAll(t, now)), size, timeout)
  {
    ElapseKeepsOrder(s, size, timeout);
    var locks := At(s.sem, s.clock).locks;
    var after := locks[System := now + t as real];
    assert WorkerLocks(after) == WorkerLocks(locks);
    assert System in after;
  }

  lemma ActKeepsOrder(s: Shop, size: nat, timeout: real, act: Act)
    requires Orderly(s, size, timeout) && timeout > 0.0 && Possible(s, act) && Covered(timeout, act)
    ensures Orderly(Perform(s, size, act), size, timeout)
  {
    match act
    case Wait(now) =>
    case TryLock(id, t, reading) => AcquireKeepsOrder(s, size, timeout, id, reading);
    case Unlock(id) =>
      ElapseKeepsOrder(s, size, timeout);
      var s1 := s.(sem := At(s.sem, s.clock));
      KeepingKeepsOrder(s1, size, timeout, s1.sem.locks - {Worker(id)}, {id});
    case LockAll(t, reading) => SystemLockKeepsOrder(s, size, timeout, t, reading);
  }

  ghost predicate IsHistory(shops: seq<Shop>, acts: seq<Act>, size: nat) {
    && |shops| == |acts| + 1 && shops[0] == Opening
    && forall i :: 0 <= i < |acts| ==> ActAt(shops, acts, size, i)
  }

  ghost predicate ActAt(shops: seq<Shop>, acts: seq<Act>, size: nat, i: nat)
    requires i < |acts| < |shops|
  {
    Possible(shops[i], acts[i]) && shops[i + 1] == Perform(shops[i], size, acts[i])
  }

  /** The premise on timeouts, up to the n-th act. */
  ghost predicate CoveredUntil(acts: seq<Act>, timeout: real, n: nat)
    requires n <= |acts|
  {
    timeout > 0.0 && forall i :: 0 <= i < n ==> Covered(timeout, acts[i])
  }

  lemma {:induction false} HistoriesAreOrderly(shops: seq<Shop>, acts: seq<Act>, size: nat, timeout: real, n: nat)
    requires IsHistory(shops, acts, size) && n < |shops| && CoveredUntil(acts, timeout, n)
    ensures Orderly(shops[n], size, timeout)
  {
    if n == 0 {
      assert WorkerLocks(map[]) == {};
    } else {
      HistoriesAreOrderly(shops, acts, size, timeout, n - 1);
      assert ActAt(shops, acts, size, n - 1);
      ActKeepsOrder(shops[n - 1], size, timeout, acts[n - 1]);
    }
  }

  lemma AcquireKeepsBound(s: Sem, id: nat, size: nat, timeout: real, now: real, clock: real)
    requires |WorkerLocks(s.locks)| <= size
    ensures |WorkerLocks(Acquire(s, id, size, timeout, now, clock).0.locks)| <= size
  {
    var live := Cleaned(s, now, clock);
    FewerLocks(live.locks, s.locks);
    if System !in live.locks { AddedLockSize(live.locks, id, now + timeout); }
  }

  lemma ActKeepsBound(s: Shop, size: nat, act: Act)
    requires |WorkerLocks(s.sem.locks)| <= size
    ensures |WorkerLocks(Perform(s, size, act).sem.locks)| <= size
  {
    var live := At(s.sem, s.clock);
    FewerLocks(live.locks, s.sem.locks);
    match act
    case Wait(_) =>
    case TryLock(id, timeout, reading) => AcquireKeepsBound(s.sem, id, size, timeout, reading, s.clock);
    case Unlock(id) => FewerLocks(live.locks - {Worker(id)}, live.locks);
    case LockAll(t, reading) =>
      assert WorkerLocks(live.locks[System := reading + t as real]) == WorkerLocks(live.locks);
  }

  /** The bound on the entries: whatever the timeouts of its callers and of system locks, a semaphore
  never has more than `size` worker locks. */
  lemma {:induction false} AtMostSizeLocks(shops: seq<Shop>, acts: seq<Act>, size: nat, n: nat)
    requires IsHistory(shops, acts, size) && n < |shops|
    ensures |WorkerLocks(shops[n].sem.locks)| <= size
  {
    if n == 0 {
      assert WorkerLocks(map[]) == {};
    } else {
      AtMostSizeLocks(shops, acts, size, n - 1);
      assert ActAt(shops, acts, size, n - 1);
      ActKeepsBound(shops[n - 1], size, acts[n - 1]);
    }
  }

  /** The workers between acquire and release whose lock has not expired. */
  function Inside(s: Shop): set<nat> {
    set w | w in s.leases && s.clock < s.leases[w]
  }

  function Wrapped(ids: set<nat>): set<Holder> {
    set w | w in ids :: Worker(w)
  }

  /** The bound on the workers: never more than `size` of them are between acquire and release with a
  lock that has not expired. */
  lemma AtMostSizeHolders(shops: seq<Shop>, acts: seq<Act>, size: nat, timeout: real, n: nat)
    requires IsHistory(shops, acts, size) && n < |shops| && CoveredUntil(acts, timeout, n)
    ensures |Inside(shops[n])| <= size
  {
    HistoriesAreOrderly(shops, acts, size, timeout, n);
    WrappedSize(Inside(shops[n]));
    SortedSets.SubsetCardinality(Wrapped(Inside(shops[n])), WorkerLocks(shops[n].sem.locks));
  }

  lemma {:induction false} WrappedSize(ids: set<nat>)
    ensures |Wrapped(ids)| == |ids|
  {
    if ids != {} {
      var v :| v in ids;
      WrappedSize(ids - {v});
      assert Wrapped(ids) == Wrapped(ids - {v}) + {Worker(v)};
    }
  }

  /** The time to live never drops a running lock, not even the system lock. */
  lemma ExpiryOutlivesLocks(shops: seq<Shop>, acts: seq<Act>, size: nat, timeout: real, n: nat, h: Holder)
    requires IsHistory(shops, acts, size) && n < |shops| && CoveredUntil(acts, timeout, n)
    requires h in shops[n].sem.locks
    ensures shops[n].sem.expiry.Some? ==> shops[n].sem.locks[h] <= shops[n].sem.expiry.value
    ensures shops[n].clock < shops[n].sem.locks[h] ==> h in At(shops[n].sem, shops[n].clock).locks
  {
    HistoriesAreOrderly(shops, acts, size, timeout, n);
  }

  /** A worker whose lock is running can always renew it, with any reading at which no system lock is
  running. */
  lemma HoldersCanRenew(shops: seq<Shop>, acts: seq<Act>, size: nat, timeout: real, n: nat, w: nat, now: real)
    requires IsHistory(shops, acts, size) && n < |shops| && CoveredUntil(acts, timeout, n)
    requires var s := shops[n]; w in s.leases && s.clock < s.leases[w] && now <= s.clock
    requires var locks := shops[n].sem.locks; System in locks ==> 0.0 <= locks[System] <= now
    ensures Acquire(shops[n].sem, w, size, timeout, now, shops[n].clock).1.acquired
  {
    var s := shops[n];
    HistoriesAreOrderly(shops, acts, size, timeout, n);
    ElapseKeepsOrder(s, size, timeout);
    var live := Unexpired(At(s.sem, s.clock).locks, now);
    assert Worker(w) in live && System !in live;
    FewerLocks(live, s.sem.locks);
    assert WorkerLocks(live) == live.Keys by {
      assert forall h :: h in live ==> h.Worker?;
    }
  }

  /** The key outlives every lock in it. */
  ghost predicate OutlivesLocks(s: Sem) {
    s.expiry.Some? ==> forall h :: h in s.locks ==> s.locks[h] <= s.expiry.value
  }

  ghost predicate WorkersEndBy(locks: map<Holder, real>, time: real) {
    forall h :: h in locks && h.Worker? ==> locks[h] <= time
  }

  /** Setting a system lock leaves every lock its full time if and only if each worker lock that is
  still there ends within the system timeout plus 10 seconds. */
  lemma SystemTimeoutIsExact(s: Sem, t: int, now: real, clock: real)
    requires now <= clock
    ensures OutlivesLocks(SetSystemLock(s, t, now, clock))
       <==> WorkersEndBy(At(s, clock).locks, clock + (t + 10) as real)
  {
    var left, locked := At(s, clock).locks, SetSystemLock(s, t, now, clock);
    assert locked.locks[System] == now + t as real;
    forall h | h in left && h.Worker? ensures h in locked.locks && locked.locks[h] == left[h] {}
  }

  /** So the premise on system timeouts is necessary: next to a lock that was just granted it is the
  exact condition. */
  lemma FreshLockNeedsCover(id: nat, timeout: real, t: int, now: real)
    requires timeout > 0.0 && now > 0.0
    ensures OutlivesLocks(SetSystemLock(Acquire(NoKey, id, 1, timeout, now, now).0, t, now, now))
       <==> Covered(timeout, LockAll(t, now))
  {
    var held := Acquire(NoKey, id, 1, timeout, now, now).0;
    assert Unexpired(map[], now) == map[];
    assert held.locks == map[Worker(id) := now + timeout] && held.expiry.None?;
    SystemTimeoutIsExact(held, t, now, now);
    assert Worker(id) in At(held, now).locks;
  }

  // ---- what the operations mean -----------------------------------------------------------------

  /** The locks that end after `now`. */
  ghost predicate EndsAfter(locks: map<Holder, real>, now: real, h: Holder) {
    h in locks && locks[h] > now
  }

  /** The other workers whose locks end after `now`. */
  function OtherWorkers(locks: map<Holder, real>, now: real, id: nat): set<nat> {
    set h | h in locks && h.Worker? && locks[h] > now && h.id != id :: h.id
  }

  function OtherHolders(locks: map<Holder, real>, now: real, id: nat): set<Holder> {
    set h | h in locks && h.Worker? && locks[h] > now && h != Worker(id)
  }

  lemma OtherWorkersSize(locks: map<Holder, real>, now: real, id: nat)
    ensures |OtherWorkers(locks, now, id)| == |OtherHolders(locks, now, id)|
  {
    WrappedSize(OtherWorkers(locks, now, id));
    assert Wrapped(OtherWorkers(locks, now, id)) == OtherHolders(locks, now, id) by {
      forall h ensures h in Wrapped(OtherWorkers(locks, now, id)) <==> h in OtherHolders(locks, now, id) {
        if h in OtherHolders(locks, now, id) { assert h == Worker(h.id); }
      }
    }
  }

  lemma LiveLocks(locks: map<Holder, real>, now: real, id: nat)
    requires forall h :: h in locks ==> locks[h] >= 0.0
    ensures var live := Unexpired(locks, now);
            && (forall h :: h in live <==> EndsAfter(locks, now, h))
            && (forall h :: h in live ==> live[h] == locks[h])
            && (System !in live ==>
                  |live| == |OtherWorkers(locks, now, id)| + if EndsAfter(locks, now, Worker(id)) then 1 else 0)
  {
    var live := Unexpired(locks, now);
    OtherWorkersSize(locks, now, id);
    if System !in live {
      var own := if EndsAfter(locks, now, Worker(id)) then {Worker(id)} else {};
      assert live.Keys == OtherHolders(locks, now, id) + own;
    }
  }

  /** Acquiring and renewing, for a key that has not elapsed. Expired locks count for nothing: the lock
  is granted if and only if no system lock runs and fewer than `size` locks of other workers do. It
  then ends one timeout later; of the other locks exactly those that are running are left. */
  lemma AcquireMeaning(s: Sem, id: nat, size: nat, timeout: real, now: real, clock: real)
    requires s.expiry.Some? ==> clock < s.expiry.value
    requires forall h :: h in s.locks ==> s.locks[h] >= 0.0
    ensures var (after, answer) := Acquire(s, id, size, timeout, now, clock);
            var others := |OtherWorkers(s.locks, now, id)|;
            && (answer.acquired <==> !EndsAfter(s.locks, now, System) && others < size)
            && (answer.acquired ==>
                  Worker(id) in after.locks && after.locks[Worker(id)] == now + timeout && answer.locks == others + 1)
            && (!answer.acquired ==>
                  answer.locks == if EndsAfter(s.locks, now, System) then -1
                                  else others + if EndsAfter(s.locks, now, Worker(id)) then 1 else 0)
            && (!answer.acquired ==> (Worker(id) in after.locks <==> EndsAfter(s.locks, now, Worker(id))))
            && (forall h :: h != Worker(id) ==> (h in after.locks <==> EndsAfter(s.locks, now, h)))
            && (forall h :: h != Worker(id) && h in after.locks ==> after.locks[h] == s.locks[h])
  {
    LiveLocks(s.locks, now, id);
    var live := Cleaned(s, now, clock);
    assert live.locks == Unexpired(s.locks, now);
  }

  /** An elapsed key, or none, is free: a worker is granted the lock if the size allows any. */
  lemma AcquireElapsed(s: Sem, id: nat, size: nat, timeout: real, now: real, clock: real)
    requires (s.expiry.Some? && clock >= s.expiry.value) || s.locks == map[]
    ensures var (after, answer) := Acquire(s, id, size, timeout, now, clock);
            && (answer.acquired <==> size > 0)
            && after.locks == (if size > 0 then map[Worker(id) := now + timeout] else map[])
  {
    assert Unexpired(map[], now) == map[];
    var none: map<Holder, real> := map[];
    assert none[Worker(id) := now + timeout] == map[Worker(id) := now + timeout];
  }

  /** A key with running locks gets twice the timeout, rounded up to seconds, from every try that meets
  no system lock. */
  lemma AcquireExtendsKey(s: Sem, id: nat, size: nat, timeout: real, now: real, clock: real)
    requires s.expiry.Some? ==> clock < s.expiry.value
    requires forall h :: h in s.locks ==> s.locks[h] >= 0.0
    requires !EndsAfter(s.locks, now, System) && exists h :: EndsAfter(s.locks, now, h)
    ensures var after := Acquire(s, id, size, timeout, now, clock).0;
            after.expiry.Some? && timeout * 2.0 <= after.expiry.value - clock < timeout * 2.0 + 1.0
  {
    LiveLocks(s.locks, now, id);
    var h :| EndsAfter(s.locks, now, h);
    assert h in Cleaned(s, now, clock).locks;
  }

  /** A release takes away the one lock and no other. */
  lemma ReleaseMeaning(s: Sem, id: nat, clock: real)
    requires s.expiry.Some? ==> clock < s.expiry.value
    ensures Release(s, id, clock).locks == s.locks - {Worker(id)}
    ensures Release(s, id, clock).expiry == if s.locks.Keys <= {Worker(id)} then None else s.expiry
  {
    if s.locks.Keys <= {Worker(id)} {
      assert s.locks - {Worker(id)} == map[];
    } else {
      var h :| h in s.locks && h != Worker(id);
      assert h in s.locks - {Worker(id)};
    }
  }

  /** A system lock ends `t` seconds after its reading, and until then refuses every worker. */
  lemma SystemLockMeaning(s: Sem, t: int, reading: real, clock: real, id: nat, size: nat, timeout: real, now: real,
                          later: real)
    requires t >= 0 && clock <= later < clock + (t + 10) as real
    requires now < reading + t as real
    ensures var locked := SetSystemLock(s, t, reading, clock);
            && locked.locks[System] == reading + t as real
            && (forall h :: h != System ==> (h in locked.locks <==> h in At(s, clock).locks))
            && (forall h :: h != System && h in locked.locks ==> locked.locks[h] == s.locks[h])
            && Acquire(locked, id, size, timeout, now, later).1 == Answer(false, -1)
  {
    var locked := SetSystemLock(s, t, reading, clock);
    assert System in Unexpired(locked.locks, now);
  }
}
