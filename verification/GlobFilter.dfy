/** The server-side prefilter of queue names: a Redis glob made from the only queue of a worker. */
module GlobFilter {
  import opened QueueNames

  // ---- Redis glob patterns -----------------------------------------------------------------

  /** One element of a pattern. A class is a list of character ranges. */
  datatype Token = Literal(c: char) | AnyOne | AnyMany | Class(negated: bool, ranges: seq<(char, char)>)

  predicate TokenMatches(t: Token, c: char) {
    match t
    case Literal(d) => c == d
    case AnyOne => true
    case AnyMany => false
    case Class(negated, ranges) => negated != exists r :: r in ranges && r.0 <= c <= r.1
  }

  /** The ranges of a class up to its closing bracket, and how many characters they take. */
  function ClassRanges(p: string, i: nat): (seq<(char, char)>, nat)
    requires i <= |p|
    ensures i <= ClassRanges(p, i).1 <= |p|
    decreases |p| - i
  {
    if i == |p| then ([], i)
    else if p[i] == ']' then ([], i + 1)
    else if p[i] == '\\' && i + 1 < |p| then
      var (rest, end) := ClassRanges(p, i + 2);
      ([(p[i + 1], p[i + 1])] + rest, end)
    else if i + 2 < |p| && p[i + 1] == '-' then
      var (rest, end) := ClassRanges(p, i + 3);
      ([if p[i] <= p[i + 2] then (p[i], p[i + 2]) else (p[i + 2], p[i])] + rest, end)
    else
      var (rest, end) := ClassRanges(p, i + 1);
      ([(p[i], p[i])] + rest, end)
  }

  function Tokens(p: string): seq<Token>
    decreases |p|
  {
    if p == "" then []
    else if p[0] == '*' then [AnyMany] + Tokens(p[1..])
    else if p[0] == '?' then [AnyOne] + Tokens(p[1..])
    else if p[0] == '[' then
      var negated := |p| > 1 && p[1] == '^';
      var (ranges, end) := ClassRanges(p, if negated then 2 else 1);
      [Class(negated, ranges)] + Tokens(p[end..])
    else if p[0] == '\\' && |p| > 1 then [Literal(p[1])] + Tokens(p[2..])
    else [Literal(p[0])] + Tokens(p[1..])
  }

  predicate TokensMatch(ts: seq<Token>, s: string)
    decreases |ts| + |s|
  {
    if ts == [] then s == ""
    else if ts[0].AnyMany? then TokensMatch(ts[1..], s) || (s != "" && TokensMatch(ts, s[1..]))
    else s != "" && TokenMatches(ts[0], s[0]) && TokensMatch(ts[1..], s[1..])
  }

  predicate GlobMatches(pattern: string, s: string) {
    TokensMatch(Tokens(pattern), s)
  }

  // ---- escaping ------------------------------------------------------------------------------

  predicate IsSpecial(c: char) {
    c == '\\' || c == '?' || c == '*' || c == '[' || c == ']'
  }

  function EscapeChar(c: char): string {
    if IsSpecial(c) then ['\\', c] else [c]
  }

  /** `redis_glob_escape`: a backslash before every special character. */
  function Escape(value: string): string {
    if value == "" then "" else EscapeChar(value[0]) + Escape(value[1..])
  }

  function Literals(value: string): seq<Token> {
    seq(|value|, i requires 0 <= i < |value| => Literal(value[i]))
  }

  lemma EscapedCharReadsLiterally(c: char, tail: string)
    ensures Tokens(EscapeChar(c) + tail) == [Literal(c)] + Tokens(tail)
  {
    var p := EscapeChar(c) + tail;
    if IsSpecial(c) {
      assert p[0] == '\\' && p[1] == c && p[2..] == tail;
    } else {
      assert p[0] == c && p[1..] == tail;
    }
  }

  lemma EscapeSplits(value: string, rest: string)
    requires value != ""
    ensures Escape(value) + rest == EscapeChar(value[0]) + (Escape(value[1..]) + rest)
  {}

  lemma LiteralsSplit(value: string, more: seq<Token>)
    requires value != ""
    ensures Literals(value) + more == [Literal(value[0])] + (Literals(value[1..]) + more)
  {}

  /** An escaped string reads as itself. */
  lemma {:induction false} EscapedReadsLiterally(value: string, rest: string, more: seq<Token>)
    requires Tokens(rest) == more
    ensures Tokens(Escape(value) + rest) == Literals(value) + more
  {
    if value == "" {
      assert Escape(value) + rest == rest;
      assert Literals(value) + more == more;
    } else {
      EscapedReadsLiterally(value[1..], rest, more);
      EscapeSplits(value, rest);
      EscapedCharReadsLiterally(value[0], Escape(value[1..]) + rest);
      LiteralsSplit(value, more);
    }
  }

  lemma {:induction false} AnyManyMatchesAll(s: string)
    ensures TokensMatch([AnyMany], s)
  {
    if s != "" {
      AnyManyMatchesAll(s[1..]);
    }
  }

  lemma {:induction false} LiteralsMatchPrefix(value: string, s: string)
    ensures TokensMatch(Literals(value) + [AnyMany], s) <==> value <= s
  {
    if value == "" {
      assert Literals(value) + [AnyMany] == [AnyMany];
      AnyManyMatchesAll(s);
    } else {
      var ts := Literals(value) + [AnyMany];
      assert ts[0] == Literal(value[0]);
      assert ts[1..] == Literals(value[1..]) + [AnyMany];
      if s != "" {
        LiteralsMatchPrefix(value[1..], s[1..]);
        assert value <= s <==> value[0] == s[0] && value[1..] <= s[1..] by {
          assert value == [value[0]] + value[1..] && s == [s[0]] + s[1..];
        }
      }
    }
  }

  /** An escaped name followed by "*" matches exactly the strings that begin with the name. */
  lemma EscapedGlobIsPrefix(name: string, s: string)
    ensures GlobMatches(Escape(name) + "*", s) <==> name <= s
  {
    assert Tokens("*") == [AnyMany] + Tokens("*"[1..]);
    EscapedReadsLiterally(name, "*", [AnyMany]);
    LiteralsMatchPrefix(name, s);
  }

  // ---- the prefilter -----------------------------------------------------------------------------

  function Only(names: set<string>): string
    requires |names| == 1
    ensures names == {Only(names)}
  {
    SingletonMember(names);
    var name :| name in names && names == {name};
    name
  }

  lemma SingletonMember(names: set<string>)
    requires |names| == 1
    ensures exists name :: name in names && names == {name}
  {
    var name :| name in names;
    assert |names - {name}| == 0;
    assert names == {name};
  }

  /** `_retrieve_queues`: all members, or those the server's glob lets through. */
  function RetrieveQueues(members: set<string>, only: set<string>): set<string> {
    if |only| != 1 then members
    else set q | q in members && GlobMatches(Escape(Only(only)) + "*", q)
  }

  /** `_filter_queues`. */
  function FilterQueues(queues: set<string>, only: set<string>, exclude: set<string>): set<string> {
    set q | q in queues && QueueMatches(q, only, exclude)
  }

  /** A queue that matches a single only-queue begins with its name. */
  lemma MatchBeginsWithName(queue: string, name: string, exclude: set<string>)
    requires QueueMatches(queue, {name}, exclude)
    ensures name <= queue
  {
    PartsBackwardsShrink(queue);
    LongestPartDecides(queue, {name}, exclude);
    var part :| IsDeciding(queue, {name}, exclude, part);
    assert part !in exclude;
  }

  /** The prefilter loses nothing: filtering what it lets through is filtering everything. */
  lemma PrefilterAgrees(members: set<string>, only: set<string>, exclude: set<string>)
    ensures FilterQueues(RetrieveQueues(members, only), only, exclude) == FilterQueues(members, only, exclude)
  {
    if |only| == 1 {
      var name := Only(only);
      forall q | q in members && QueueMatches(q, only, exclude)
        ensures GlobMatches(Escape(name) + "*", q)
      {
        MatchBeginsWithName(q, name, exclude);
        EscapedGlobIsPrefix(name, q);
      }
    }
  }

  /** What the server sends and what the worker keeps: with a single only-queue the names that begin with
  it, and otherwise all; of them those whose longest configured part is not excluded, or all that
  have no configured part if no only-queues are given. */
  lemma FilterExact(members: set<string>, only: set<string>, exclude: set<string>, q: string)
    ensures q in RetrieveQueues(members, only)
       <==> q in members && forall name :: only == {name} ==> name <= q
    ensures forall part :: IsDeciding(q, only, exclude, part) ==>
              (q in FilterQueues(members, only, exclude) <==> q in members && part !in exclude)
    ensures (forall part :: !IsDeciding(q, only, exclude, part)) ==>
              (q in FilterQueues(members, only, exclude) <==> q in members && only == {})
  {
    LongestPartDecides(q, only, exclude);
    if |only| == 1 {
      EscapedGlobIsPrefix(Only(only), q);
      forall name ensures only == {name} <==> name == Only(only) {
        if only == {name} { assert Only(only) in only; }
      }
    } else {
      forall name ensures only != {name} {}
    }
  }
}
