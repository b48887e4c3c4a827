/** Redis sorted sets: a finite map from members to scores, read in (score, member) order.

Task ids are 64-digit hexadecimal strings, so their byte order is the order of the
numbers they write; a member is therefore modelled as a natural number. */
module SortedSets {

  type Id = nat

  type ZSet = map<Id, real>

  /** The upper end of a score range: "+inf", or a score that is itself included. */
  datatype Bound = Unbounded | AtMost(limit: real)

  predicate Within(bound: Bound, score: real) {
    bound.AtMost? ==> score <= bound.limit
  }

  /** The order in which Redis keeps members: by score, then by member. */
  predicate Before(z: ZSet, a: Id, b: Id)
    requires a in z && b in z
  {
    z[a] < z[b] || (z[a] == z[b] && a < b)
  }

  function Preceding(z: ZSet, id: Id): set<Id>
    requires id in z
  {
    set x | x in z && Before(z, x, id)
  }

  /** ZRANK: how many members come before `id`. */
  function Rank(z: ZSet, id: Id): nat
    requires id in z
  {
    |Preceding(z, id)|
  }

  function Eligible(z: ZSet, bound: Bound): set<Id> {
    set x | x in z && Within(bound, z[x])
  }

  /** LIMIT 0 count keeps at most `count` members; a negative count keeps all. */
  function Cap(count: int, available: nat): nat {
    if 0 <= count < available then count else available
  }

  predicate IsFirst(z: ZSet, m: Id) {
    m in z && forall x :: x in z && x != m ==> Before(z, m, x)
  }

  lemma {:induction false} FirstExists(z: ZSet)
    requires z != map[]
    ensures exists m :: m in z && IsFirst(z, m)
    decreases |z|
  {
    var a :| a in z;
    var rest := z - {a};
    if rest == map[] {
      assert forall x :: x in z ==> x == a || x in rest;
      assert IsFirst(z, a);
    } else {
      assert a !in rest && rest.Keys == z.Keys - {a};
      assert |rest.Keys| < |z.Keys|;
      FirstExists(rest);
      var b :| b in rest && IsFirst(rest, b);
      var m := if Before(z, a, b) then a else b;
      forall x | x in z && x != m ensures Before(z, m, x) {
        if x != a { assert x in rest; }
      }
      assert IsFirst(z, m);
    }
  }

  function First(z: ZSet): (m: Id)
    requires z != map[]
    ensures IsFirst(z, m)
  {
    FirstExists(z);
    var m :| m in z && IsFirst(z, m);
    m
  }

  /** ZRANGEBYSCORE z -inf bound LIMIT 0 count. */
  function RangeByScore(z: ZSet, bound: Bound, count: int): seq<Id>
    decreases |z|
  {
    if z == map[] || count == 0 then []
    else
      var m := First(z);
      if !Within(bound, z[m]) then []
      else
        Shrinks(z, m);
        [m] + RangeByScore(z - {m}, bound, count - 1)
  }

  lemma Shrinks(z: ZSet, m: Id)
    requires m in z
    ensures |z - {m}| == |z| - 1
  {
    assert (z - {m}).Keys == z.Keys - {m};
  }

  /** ZREMRANGEBYRANK z 0 n-1. */
  function RemoveLowest(z: ZSet, n: nat): ZSet {
    map x | x in z && Rank(z, x) >= n :: z[x]
  }

  /** ZRANGEBYSCORE with a lower end of 0 instead of -inf reads only this part of the set. */
  function NonNegative(z: ZSet): ZSet {
    map x | x in z && z[x] >= 0.0 :: z[x]
  }

  lemma RankIsInjective(z: ZSet, a: Id, b: Id)
    requires a in z && b in z && a != b
    ensures Rank(z, a) != Rank(z, b)
    ensures Rank(z, a) < Rank(z, b) <==> Before(z, a, b)
  {
    var lo, hi := if Before(z, a, b) then a else b, if Before(z, a, b) then b else a;
    assert Preceding(z, lo) <= Preceding(z, hi);
    assert lo in Preceding(z, hi) && lo !in Preceding(z, lo);
    SubsetCardinality(Preceding(z, lo) + {lo}, Preceding(z, hi));
  }

  lemma SubsetCardinality<T>(a: set<T>, b: set<T>)
    requires a <= b
    ensures |a| <= |b|
    ensures |b - a| == |b| - |a|
    ensures |a| == |b| ==> a == b
  {
    assert b == a + (b - a);
  }

  lemma FirstHasRankZero(z: ZSet, m: Id)
    requires IsFirst(z, m)
    ensures Rank(z, m) == 0
    ensures forall x :: x in z && x != m ==> Rank(z, x) == Rank(z - {m}, x) + 1
  {
    assert Preceding(z, m) == {};
    forall x | x in z && x != m ensures Rank(z, x) == Rank(z - {m}, x) + 1 {
      assert Preceding(z - {m}, x) == Preceding(z, x) - {m};
      assert m in Preceding(z, x);
    }
  }

  lemma EligibleAfterFirst(z: ZSet, bound: Bound, m: Id)
    requires IsFirst(z, m)
    ensures Within(bound, z[m]) ==> |Eligible(z - {m}, bound)| == |Eligible(z, bound)| - 1
    ensures !Within(bound, z[m]) ==> Eligible(z, bound) == {}
  {
    if Within(bound, z[m]) {
      assert Eligible(z - {m}, bound) == Eligible(z, bound) - {m};
      assert m in Eligible(z, bound);
    }
  }

  /** The members read by ZRANGEBYSCORE are the members of ranks 0, 1, 2, ...: as many as
  the limit and the bound allow, in rank order. */
  lemma {:induction false} RangeIsRanks(z: ZSet, bound: Bound, count: int)
    ensures |RangeByScore(z, bound, count)| == Cap(count, |Eligible(z, bound)|)
    ensures forall i :: 0 <= i < |RangeByScore(z, bound, count)| ==>
              var m := RangeByScore(z, bound, count)[i];
              m in z && Within(bound, z[m]) && Rank(z, m) == i
    decreases |z|
  {
    if z == map[] {
      assert Eligible(z, bound) == {};
    } else {
      var m := First(z);
      EligibleAfterFirst(z, bound, m);
      if count != 0 && Within(bound, z[m]) {
        Shrinks(z, m);
        RangeIsRanks(z - {m}, bound, count - 1);
        FirstHasRankZero(z, m);
        var rest := RangeByScore(z - {m}, bound, count - 1);
        assert RangeByScore(z, bound, count) == [m] + rest;
        forall i | 0 <= i < |rest| + 1
          ensures var x := ([m] + rest)[i]; x in z && Within(bound, z[x]) && Rank(z, x) == i
        {
          if i > 0 { assert rest[i - 1] in z - {m}; }
        }
      }
    }
  }

  /** Taking the first members by score and deleting as many ranks removes the same members. */
  lemma RangeMatchesRemoval(z: ZSet, bound: Bound, count: int)
    ensures var ms := RangeByScore(z, bound, count);
            && RemoveLowest(z, |ms|) == z - (set x | x in ms)
            && (forall x :: x in z ==> (x in ms <==> Rank(z, x) < |ms|))
            && (forall i, j :: 0 <= i < j < |ms| ==> ms[i] != ms[j])
  {
    var ms := RangeByScore(z, bound, count);
    RangeIsRanks(z, bound, count);
    forall x | x in z ensures x in ms <==> Rank(z, x) < |ms| {
      if Rank(z, x) < |ms| && ms[Rank(z, x)] != x {
        RankIsInjective(z, x, ms[Rank(z, x)]);
      }
    }
    assert RemoveLowest(z, |ms|) == z - (set x | x in ms);
  }

  /** Deleting the n lowest ranks lowers every remaining rank by n. */
  lemma RemovalLowersRanks(z: ZSet, bound: Bound, count: int, x: Id)
    requires x in RemoveLowest(z, |RangeByScore(z, bound, count)|)
    ensures Rank(RemoveLowest(z, |RangeByScore(z, bound, count)|), x)
         == Rank(z, x) - |RangeByScore(z, bound, count)|
  {
    var ms := RangeByScore(z, bound, count);
    var gone := set y | y in ms;
    RangeIsRanks(z, bound, count);
    RangeMatchesRemoval(z, bound, count);
    DistinctCardinality(ms);
    forall y | y in gone ensures y in Preceding(z, x) {
      RankIsInjective(z, y, x);
    }
    SubsetCardinality(gone, Preceding(z, x));
    assert Preceding(RemoveLowest(z, |ms|), x) == Preceding(z, x) - gone;
  }

  ghost predicate NoRepeats<T>(s: seq<T>) {
    forall i, j :: 0 <= i < j < |s| ==> s[i] != s[j]
  }

  lemma TailOf<T>(s: seq<T>)
    requires s != [] && NoRepeats(s)
    ensures NoRepeats(s[1..]) && s[0] !in s[1..] && s == [s[0]] + s[1..]
  {
    assert forall j :: 0 <= j < |s[1..]| ==> s[1..][j] == s[j + 1];
  }

  lemma {:induction false} DistinctCardinality<T>(s: seq<T>)
    requires NoRepeats(s)
    ensures |set x | x in s| == |s|
  {
    if s != [] {
      DistinctCardinality(s[1..]);
      assert (set x | x in s) == {s[0]} + (set x | x in s[1..]);
    }
  }
}
