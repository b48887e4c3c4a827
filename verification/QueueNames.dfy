/** Dotted queue names: their parts, and how a worker's queue lists and batch sizes apply. */
module QueueNames {

  /** `s.find(".", from)`. */
  function Find(s: string, from: nat): int
    decreases |s| - from
  {
    if from >= |s| then -1 else if s[from] == '.' then from else Find(s, from + 1)
  }

  /** `s.rfind(".", 0, end)`. */
  function RFind(s: string, end: nat): int
    requires end <= |s|
  {
    if end == 0 then -1 else if s[end - 1] == '.' then end - 1 else RFind(s, end - 1)
  }

  /** The prefixes of `s` that end before one of its dots at or after `i`, shortest first. */
  function PrefixesFrom(s: string, i: nat): seq<string>
    requires i <= |s|
    decreases |s| - i
  {
    if i == |s| then []
    else if s[i] == '.' then [s[..i]] + PrefixesFrom(s, i + 1)
    else PrefixesFrom(s, i + 1)
  }

  /** "a", "a.b" and "a.b.c" for "a.b.c"; nothing for the empty name. */
  function Parts(s: string): seq<string> {
    if s == "" then [] else PrefixesFrom(s, 0) + [s]
  }

  /** The prefixes of `s` that end before one of its dots below `end`, longest first. */
  function PrefixesBelow(s: string, end: nat): seq<string>
    requires end <= |s|
  {
    if end == 0 then []
    else if s[end - 1] == '.' then [s[..end - 1]] + PrefixesBelow(s, end - 1)
    else PrefixesBelow(s, end - 1)
  }

  /** What `reversed_dotted_parts` yields. Its first search ends before the last character, so a
  dot at the very end is not seen. */
  function PartsBackwards(s: string): seq<string> {
    if s == "" then [] else [s] + PrefixesBelow(s, |s| - 1)
  }

  lemma {:induction false} FindSkips(s: string, i: nat)
    requires i <= |s|
    ensures var k := Find(s, i);
            if k == -1 then PrefixesFrom(s, i) == []
            else i <= k < |s| && PrefixesFrom(s, i) == [s[..k]] + PrefixesFrom(s, k + 1)
    decreases |s| - i
  {
    if i < |s| && s[i] != '.' {
      FindSkips(s, i + 1);
    }
  }

  lemma {:induction false} RFindSkips(s: string, end: nat)
    requires end <= |s|
    ensures var k := RFind(s, end);
            if k == -1 then PrefixesBelow(s, end) == []
            else 0 <= k < end && PrefixesBelow(s, end) == [s[..k]] + PrefixesBelow(s, k)
  {
    if end > 0 && s[end - 1] != '.' {
      RFindSkips(s, end - 1);
    }
  }

  method DottedParts(s: string) returns (parts: seq<string>)
    ensures parts == Parts(s)
  {
    parts := [];
    var idx := -1;
    while s != ""
      invariant -1 <= idx < |s| || s == ""
      invariant s != "" ==> parts + PrefixesFrom(s, idx + 1) == PrefixesFrom(s, 0)
      invariant s == "" ==> parts == []
      decreases |s| - idx
    {
      FindSkips(s, idx + 1);
      idx := Find(s, idx + 1);
      if idx == -1 {
        parts := parts + [s];
        break;
      }
      parts := parts + [s[..idx]];
    }
  }

  method ReversedDottedParts(s: string) returns (parts: seq<string>)
    ensures parts == PartsBackwards(s)
  {
    parts := [];
    var idx := -1;
    if s != "" {
      parts := parts + [s];
    }
    while s != ""
      invariant -1 <= idx < |s|
      invariant s != "" ==>
                  parts + PrefixesBelow(s, if idx == -1 then |s| - 1 else idx) == PartsBackwards(s)
      invariant s == "" ==> parts == []
      decreases if idx == -1 then |s| else idx
    {
      // a negative end counts from the end of the string
      var end := if idx < 0 then |s| + idx else idx;
      RFindSkips(s, end);
      idx := RFind(s, end);
      if idx == -1 {
        break;
      }
      parts := parts + [s[..idx]];
    }
  }

  function Reverse<T>(s: seq<T>): (r: seq<T>)
    ensures |r| == |s|
  {
    if s == [] then [] else Reverse(s[1..]) + [s[0]]
  }

  predicate EndsInDot(s: string) {
    s != "" && s[|s| - 1] == '.'
  }

  lemma {:induction false} ReverseConcat<T>(a: seq<T>, b: seq<T>)
    ensures Reverse(a + b) == Reverse(b) + Reverse(a)
  {
    if a == [] {
      assert a + b == b;
    } else {
      ReverseConcat(a[1..], b);
      assert (a + b)[1..] == a[1..] + b;
    }
  }

  /** The prefixes up to a position and from it on make up all of them. */
  lemma {:induction false} PrefixesSplit(s: string, end: nat)
    requires end <= |s|
    ensures PrefixesFrom(s, 0) == Reverse(PrefixesBelow(s, end)) + PrefixesFrom(s, end)
  {
    if end > 0 {
      PrefixesSplit(s, end - 1);
    }
  }

  lemma ReverseTwice<T>(s: seq<T>)
    ensures Reverse(Reverse(s)) == s
  {
    if s != [] {
      ReverseTwice(s[1..]);
      ReverseConcat(Reverse(s[1..]), [s[0]]);
      assert Reverse([s[0]]) == [s[0]];
    }
  }

  /** The two loops yield reversed sequences exactly for names that do not end in a dot. */
  lemma BackwardsIsReverse(s: string)
    ensures PartsBackwards(s) == Reverse(Parts(s)) <==> !EndsInDot(s)
  {
    if s != "" {
      var n := |s|;
      PrefixesSplit(s, n);
      ReverseTwice(PrefixesBelow(s, n));
      ReverseConcat(PrefixesFrom(s, 0), [s]);
      assert Reverse([s]) == [s];
      assert PrefixesFrom(s, 0) == Reverse(PrefixesBelow(s, n));
      assert Reverse(Parts(s)) == [s] + PrefixesBelow(s, n);
      if EndsInDot(s) {
        assert |PrefixesBelow(s, n)| == |PrefixesBelow(s, n - 1)| + 1;
      }
    }
  }

  // ---- what the parts are --------------------------------------------------------------------

  predicate IsPrefixAtDot(s: string, i: nat, part: string) {
    i < |s| && s[i] == '.' && part == s[..i]
  }

  lemma {:induction false} PrefixesBelowMembers(s: string, end: nat, part: string)
    requires end <= |s|
    ensures part in PrefixesBelow(s, end) <==> exists i: nat :: i < end && IsPrefixAtDot(s, i, part)
  {
    if end > 0 {
      PrefixesBelowMembers(s, end - 1, part);
      if s[end - 1] == '.' {
        assert IsPrefixAtDot(s, end - 1, s[..end - 1]);
      }
    }
  }

  lemma {:induction false} PrefixesBelowShrink(s: string, end: nat)
    requires end <= |s|
    ensures forall part :: part in PrefixesBelow(s, end) ==> |part| < end && part <= s
    ensures forall i, j :: 0 <= i < j < |PrefixesBelow(s, end)| ==>
              |PrefixesBelow(s, end)[j]| < |PrefixesBelow(s, end)[i]|
  {
    if end > 0 {
      PrefixesBelowShrink(s, end - 1);
    }
  }

  /** Every part is a prefix of the name, and the parts get shorter. */
  lemma PartsBackwardsShrink(s: string)
    ensures forall part :: part in PartsBackwards(s) ==> part <= s
    ensures forall i, j :: 0 <= i < j < |PartsBackwards(s)| ==> |PartsBackwards(s)[j]| < |PartsBackwards(s)[i]|
  {
    if s != "" {
      PrefixesBelowShrink(s, |s| - 1);
      var tail := PrefixesBelow(s, |s| - 1);
      forall i, j | 0 <= i < j < |tail| + 1 ensures |([s] + tail)[j]| < |([s] + tail)[i]| {
        assert tail[j - 1] in tail;
      }
    }
  }

  // ---- queue_matches -----------------------------------------------------------------------------

  /** The answer given by the first of `parts` that is configured. */
  function FirstAnswer(parts: seq<string>, only: set<string>, exclude: set<string>): bool {
    if parts == [] then only == {}
    else if parts[0] in exclude then false
    else if parts[0] in only then true
    else FirstAnswer(parts[1..], only, exclude)
  }

  predicate QueueMatches(queue: string, only: set<string>, exclude: set<string>) {
    FirstAnswer(PartsBackwards(queue), only, exclude)
  }

  method MatchQueue(queue: string, only: set<string>, exclude: set<string>) returns (matches: bool)
    ensures matches == QueueMatches(queue, only, exclude)
  {
    var parts := ReversedDottedParts(queue);
    var i := 0;
    while i < |parts|
      invariant 0 <= i <= |parts|
      invariant QueueMatches(queue, only, exclude) == FirstAnswer(parts[i..], only, exclude)
    {
      if parts[i] in exclude {
        return false;
      }
      if parts[i] in only {
        return true;
      }
      i := i + 1;
    }
    return only == {};
  }

  /** `part` is the longest part of the queue name that is configured. */
  ghost predicate IsDeciding(queue: string, only: set<string>, exclude: set<string>, part: string) {
    && part in PartsBackwards(queue) && part in only + exclude
    && forall other :: other in PartsBackwards(queue) && other in only + exclude ==> |other| <= |part|
  }

  lemma {:induction false} FirstAnswerAt(parts: seq<string>, only: set<string>, exclude: set<string>, k: nat)
    requires k < |parts| && parts[k] in only + exclude
    requires forall j :: 0 <= j < k ==> parts[j] !in only + exclude
    ensures FirstAnswer(parts, only, exclude) <==> parts[k] !in exclude
  {
    if k > 0 {
      assert parts[0] !in only + exclude;
      assert forall j :: 0 <= j < k - 1 ==> parts[1..][j] == parts[j + 1];
      FirstAnswerAt(parts[1..], only, exclude, k - 1);
    }
  }

  lemma {:induction false} NoAnswer(parts: seq<string>, only: set<string>, exclude: set<string>)
    requires forall part :: part in parts ==> part !in only + exclude
    ensures FirstAnswer(parts, only, exclude) <==> only == {}
  {
    if parts != [] {
      assert parts[0] in parts;
      NoAnswer(parts[1..], only, exclude);
    }
  }

  /** Some configured part is the longest one. */
  lemma {:induction false} SomeDecides(queue: string, only: set<string>, exclude: set<string>, k: nat)
    requires k <= |PartsBackwards(queue)|
    requires forall j :: 0 <= j < k ==> PartsBackwards(queue)[j] !in only + exclude
    requires exists part :: part in PartsBackwards(queue) && part in only + exclude
    ensures exists part :: IsDeciding(queue, only, exclude, part)
    decreases |PartsBackwards(queue)| - k
  {
    var parts := PartsBackwards(queue);
    if k < |parts| {
      if parts[k] in only + exclude {
        PartsBackwardsShrink(queue);
        assert IsDeciding(queue, only, exclude, parts[k]);
      } else {
        SomeDecides(queue, only, exclude, k + 1);
      }
    }
  }

  /** The longest configured part decides, and an exclusion wins over an inclusion of the same
  part; without any, a queue matches exactly when no list of queues was given. */
  lemma LongestPartDecides(queue: string, only: set<string>, exclude: set<string>)
    ensures forall part :: IsDeciding(queue, only, exclude, part) ==>
              (QueueMatches(queue, only, exclude) <==> part !in exclude)
    ensures (forall part :: !IsDeciding(queue, only, exclude, part)) ==>
              (QueueMatches(queue, only, exclude) <==> only == {})
  {
    var parts := PartsBackwards(queue);
    PartsBackwardsShrink(queue);
    forall part | IsDeciding(queue, only, exclude, part)
      ensures QueueMatches(queue, only, exclude) <==> part !in exclude
    {
      var k :| 0 <= k < |parts| && parts[k] == part;
      FirstAnswerAt(parts, only, exclude, k);
    }
    if exists part :: part in parts && part in only + exclude {
      SomeDecides(queue, only, exclude, 0);
    } else {
      NoAnswer(parts, only, exclude);
    }
  }

  // ---- batch sizes -----------------------------------------------------------------------------

  /** The size of the last of `parts` that has one, and `default` if none has. */
  function LastSize(parts: seq<string>, sizes: map<string, int>, default: int): int {
    if parts == [] then default
    else LastSize(parts[1..], sizes, if parts[0] in sizes then sizes[parts[0]] else default)
  }

  function FirstSize(parts: seq<string>, sizes: map<string, int>, default: int): int {
    if parts == [] then default
    else if parts[0] in sizes then sizes[parts[0]]
    else FirstSize(parts[1..], sizes, default)
  }

  method QueueBatchSize(queue: string, sizes: map<string, int>) returns (size: int)
    ensures size == LastSize(Parts(queue), sizes, 1)
  {
    var parts := DottedParts(queue);
    size := 1;
    for i := 0 to |parts|
      invariant LastSize(parts[i..], sizes, size) == LastSize(parts, sizes, 1)
    {
      assert parts[i..][1..] == parts[i + 1..];
      if parts[i] in sizes {
        size := sizes[parts[i]];
      }
    }
  }

  lemma {:induction false} FirstSizeAppend(parts: seq<string>, last: string, sizes: map<string, int>, default: int)
    ensures FirstSize(parts + [last], sizes, default)
         == FirstSize(parts, sizes, if last in sizes then sizes[last] else default)
  {
    if parts != [] {
      assert (parts + [last])[1..] == parts[1..] + [last];
      FirstSizeAppend(parts[1..], last, sizes, default);
    }
  }

  /** The last hit of a scan is the first hit of the reversed scan. */
  lemma {:induction false} LastIsFirstReversed(parts: seq<string>, sizes: map<string, int>, default: int)
    ensures LastSize(parts, sizes, default) == FirstSize(Reverse(parts), sizes, default)
  {
    if parts != [] {
      LastIsFirstReversed(parts[1..], sizes, if parts[0] in sizes then sizes[parts[0]] else default);
      FirstSizeAppend(Reverse(parts[1..]), parts[0], sizes, default);
    }
  }

  /** The scan in reverse order that stops at its first hit would give the same batch size for
  every configuration exactly for names that do not end in a dot. */
  lemma ReverseScanAgrees(queue: string)
    ensures (forall sizes :: FirstSize(PartsBackwards(queue), sizes, 1) == LastSize(Parts(queue), sizes, 1))
       <==> !EndsInDot(queue)
  {
    BackwardsIsReverse(queue);
    if !EndsInDot(queue) {
      forall sizes ensures FirstSize(PartsBackwards(queue), sizes, 1) == LastSize(Parts(queue), sizes, 1) {
        LastIsFirstReversed(Parts(queue), sizes, 1);
      }
    } else {
      TrailingDotMissed(queue);
    }
  }

  lemma {:induction false} NoSize(parts: seq<string>, sizes: map<string, int>, default: int)
    requires forall part :: part in parts ==> part !in sizes
    ensures FirstSize(parts, sizes, default) == default
  {
    if parts != [] {
      NoSize(parts[1..], sizes, default);
    }
  }

  /** For a name that ends in a dot the reverse scan misses the name without that dot. */
  lemma TrailingDotMissed(queue: string)
    requires EndsInDot(queue)
    ensures var sizes := map[queue[..|queue| - 1] := 2];
            && LastSize(Parts(queue), sizes, 1) == 2
            && FirstSize(PartsBackwards(queue), sizes, 1) == 1
  {
    var n := |queue|;
    var stem := queue[..n - 1];
    var sizes := map[stem := 2];
    PrefixesBelowShrink(queue, n - 1);
    NoSize(PartsBackwards(queue), sizes, 1);
    LastIsFirstReversed(Parts(queue), sizes, 1);
    PrefixesSplit(queue, n);
    ReverseTwice(PrefixesBelow(queue, n));
    ReverseConcat(PrefixesFrom(queue, 0), [queue]);
    assert Reverse([queue]) == [queue];
    assert PrefixesFrom(queue, 0) == Reverse(PrefixesBelow(queue, n));
    var back := [queue] + PrefixesBelow(queue, n);
    assert Reverse(Parts(queue)) == back;
    assert back[1..] == PrefixesBelow(queue, n);
    assert PrefixesBelow(queue, n)[0] == stem;
    assert FirstSize(back, sizes, 1) == FirstSize(back[1..], sizes, 1);
  }

  // ---- exact readings ----------------------------------------------------------------------------

  lemma {:induction false} PrefixesFromMembers(s: string, i: nat, part: string)
    requires i <= |s|
    ensures part in PrefixesFrom(s, i) <==> exists k: nat :: i <= k && IsPrefixAtDot(s, k, part)
    decreases |s| - i
  {
    if i < |s| {
      PrefixesFromMembers(s, i + 1, part);
      if s[i] == '.' { assert IsPrefixAtDot(s, i, s[..i]); }
    }
  }

  /** The parts of a name are the name and what comes before each of its dots; going backwards, a dot at
  the very end is not seen. */
  lemma PartsExact(s: string, part: string)
    ensures part in Parts(s) <==> s != "" && (part == s || exists k: nat :: k < |s| && s[k] == '.' && part == s[..k])
    ensures part in PartsBackwards(s)
       <==> s != "" && (part == s || exists k: nat :: k < |s| - 1 && s[k] == '.' && part == s[..k])
  {
    if s != "" {
      PrefixesFromMembers(s, 0, part);
      PrefixesBelowMembers(s, |s| - 1, part);
      forall k: nat ensures IsPrefixAtDot(s, k, part) <==> k < |s| && s[k] == '.' && part == s[..k] {}
    }
  }

  lemma {:induction false} PrefixesFromGrow(s: string, i: nat)
    requires i <= |s|
    ensures forall part :: part in PrefixesFrom(s, i) ==> i <= |part| < |s|
    ensures forall j, k :: 0 <= j < k < |PrefixesFrom(s, i)| ==> |PrefixesFrom(s, i)[j]| < |PrefixesFrom(s, i)[k]|
    decreases |s| - i
  {
    if i < |s| {
      PrefixesFromGrow(s, i + 1);
      if s[i] == '.' {
        var tail := PrefixesFrom(s, i + 1);
        forall k | 0 <= k < |tail| ensures |s[..i]| < |tail[k]| { assert tail[k] in tail; }
      }
    }
  }

  /** The parts get longer. */
  lemma PartsGrow(s: string)
    ensures forall j, k :: 0 <= j < k < |Parts(s)| ==> |Parts(s)[j]| < |Parts(s)[k]|
  {
    if s != "" {
      PrefixesFromGrow(s, 0);
      var head := PrefixesFrom(s, 0);
      forall j | 0 <= j < |head| ensures |head[j]| < |s| { assert head[j] in head; }
    }
  }

  lemma {:induction false} LastSizeAt(parts: seq<string>, sizes: map<string, int>, default: int, k: nat)
    requires k < |parts| && parts[k] in sizes && forall j :: k < j < |parts| ==> parts[j] !in sizes
    ensures LastSize(parts, sizes, default) == sizes[parts[k]]
  {
    var next := if parts[0] in sizes then sizes[parts[0]] else default;
    assert forall j :: 0 <= j < |parts[1..]| ==> parts[1..][j] == parts[j + 1];
    if k > 0 {
      LastSizeAt(parts[1..], sizes, next, k - 1);
    } else {
      LastSizeOfNone(parts[1..], sizes, next);
    }
  }

  lemma {:induction false} LastSizeOfNone(parts: seq<string>, sizes: map<string, int>, default: int)
    requires forall part :: part in parts ==> part !in sizes
    ensures LastSize(parts, sizes, default) == default
  {
    if parts != [] {
      assert parts[0] in parts;
      LastSizeOfNone(parts[1..], sizes, default);
    }
  }

  /** The batch size is that of the longest part with one, and 1 if no part has one. */
  lemma LongestPartGivesSize(queue: string, sizes: map<string, int>)
    ensures forall part :: part in Parts(queue) && part in sizes
                           && (forall other :: other in Parts(queue) && other in sizes ==> |other| <= |part|)
                           ==> LastSize(Parts(queue), sizes, 1) == sizes[part]
    ensures (forall part :: part in Parts(queue) ==> part !in sizes) ==> LastSize(Parts(queue), sizes, 1) == 1
  {
    var parts := Parts(queue);
    PartsGrow(queue);
    forall part | part in parts && part in sizes
                  && (forall other :: other in parts && other in sizes ==> |other| <= |part|)
      ensures LastSize(parts, sizes, 1) == sizes[part]
    {
      var k :| 0 <= k < |parts| && parts[k] == part;
      forall j | k < j < |parts| ensures parts[j] !in sizes { assert parts[j] in parts; }
      LastSizeAt(parts, sizes, 1, k);
    }
    if forall part :: part in parts ==> part !in sizes { LastSizeOfNone(parts, sizes, 1); }
  }
}
