/** The schedule of a periodic task. Times are microseconds, periods are seconds. */
module Schedule {
  import opened Wrappers

  const SECOND := 1_000_000

  /** `_periodic`: the next run after `dt`, or None when the schedule has ended. */
  function Periodic(dt: int, period: int, start: int, end: Option<int>): Option<int>
    requires period > 0
  {
    if end.Some? && dt >= end.value then None
    else if dt < start then Some(start)
    else
      var seconds := (dt - start) / SECOND;
      var nextRun := seconds / period + 1;
      var next := start + nextRun * period * SECOND;
      if end.Some? && next > end.value then None else Some(next)
  }

  type Period = period: int | period > 0 witness 1

  /** What `periodic(...)` was called with. */
  datatype Plan = Plan(period: Period, start: int, end: Option<int>) {
    function Next(dt: int): Option<int> {
      Periodic(dt, period, start, end)
    }
  }

  /** `get_timestamp`: microseconds to seconds. */
  function Timestamp(time: int): real {
    time as real / SECOND as real
  }

  /** The k-th time of the schedule. */
  function Slot(period: int, start: int, k: nat): int {
    start + k * period * 1_000_000
  }

  /** `t` is the first time of the schedule that is strictly after `dt`. */
  ghost predicate IsNextSlot(dt: int, period: int, start: int, t: int) {
    && t > dt
    && (exists k: nat :: t == Slot(period, start, k))
    && forall k: nat :: Slot(period, start, k) > dt ==> Slot(period, start, k) >= t
  }

  lemma SlotsGrow(period: int, start: int, j: nat, k: nat)
    requires period > 0 && j <= k
    ensures Slot(period, start, j) <= Slot(period, start, k)
  {
    assert (k - j) * period >= 0;
    assert k * period == j * period + (k - j) * period;
  }

  lemma WholeSeconds(elapsed: int, period: int)
    requires elapsed >= 0 && period > 0
    ensures var runs := elapsed / SECOND / period;
            runs >= 0 && runs * period * SECOND <= elapsed < (runs + 1) * period * SECOND
  {
    var seconds := elapsed / SECOND;
    var runs := seconds / period;
    assert seconds * SECOND <= elapsed < (seconds + 1) * SECOND;
    assert runs * period <= seconds < (runs + 1) * period by {
      assert seconds == runs * period + seconds % period;
    }
    assert (runs + 1) * period >= seconds + 1;
  }

  /** A result is always the first slot strictly after the given time. */
  lemma PeriodicIsNextSlot(dt: int, period: int, start: int, end: Option<int>)
    requires period > 0
    ensures var r := Periodic(dt, period, start, end); r.Some? ==> IsNextSlot(dt, period, start, r.value)
  {
    var r := Periodic(dt, period, start, end);
    if r.Some? {
      if dt < start {
        assert start == Slot(period, start, 0);
        forall k: nat ensures Slot(period, start, k) >= start { SlotsGrow(period, start, 0, k); }
      } else {
        WholeSeconds(dt - start, period);
        var runs := (dt - start) / SECOND / period;
        assert r.value == Slot(period, start, runs + 1);
        forall k: nat | Slot(period, start, k) > dt ensures Slot(period, start, k) >= r.value {
          if k <= runs { SlotsGrow(period, start, k, runs); } else { SlotsGrow(period, start, runs + 1, k); }
        }
      }
    }
  }

  /** There is no result exactly when the schedule has ended or its next slot lies beyond the end;
  but a start date is returned even if it lies beyond the end. A schedule without an end never
  runs out. */
  lemma PeriodicEnds(dt: int, period: int, start: int, end: Option<int>, next: int)
    requires period > 0 && IsNextSlot(dt, period, start, next)
    ensures Periodic(dt, period, start, end).None?
       <==> end.Some? && (dt >= end.value || (dt >= start && next > end.value))
  {
    PeriodicIsNextSlot(dt, period, start, None);
    NextSlotIsUnique(dt, period, start, next, Periodic(dt, period, start, None).value);
  }

  lemma NextSlotIsUnique(dt: int, period: int, start: int, a: int, b: int)
    requires IsNextSlot(dt, period, start, a) && IsNextSlot(dt, period, start, b)
    ensures a == b
  {
    var j: nat :| a == Slot(period, start, j);
    var k: nat :| b == Slot(period, start, k);
    assert Slot(period, start, j) >= b && Slot(period, start, k) >= a;
  }
}
