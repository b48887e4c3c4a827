/** Sequences of tasks: grouping by function, and what a batch did with its tasks. */
module Batches {
  import opened SortedSets
  import opened TaskDb

  function Ids(tasks: seq<Record>): seq<Id> {
    seq(|tasks|, i requires 0 <= i < |tasks| => tasks[i].id)
  }

  /** The tasks of one function, in their order. */
  function OfFunc(tasks: seq<Record>, func: string): seq<Record> {
    if tasks == [] then []
    else
      var rest := OfFunc(tasks[..|tasks| - 1], func);
      if tasks[|tasks| - 1].func == func then rest + [tasks[|tasks| - 1]] else rest
  }

  /** The functions of the tasks in the order in which they are first seen. */
  function FirstSeen(tasks: seq<Record>): seq<string> {
    if tasks == [] then []
    else
      var rest, func := FirstSeen(tasks[..|tasks| - 1]), tasks[|tasks| - 1].func;
      if func in rest then rest else rest + [func]
  }

  lemma {:induction false} FirstSeenCovers(tasks: seq<Record>)
    ensures forall t :: t in tasks ==> t.func in FirstSeen(tasks)
    ensures NoRepeats(FirstSeen(tasks))
  {
    if tasks != [] {
      FirstSeenCovers(tasks[..|tasks| - 1]);
      assert tasks == tasks[..|tasks| - 1] + [tasks[|tasks| - 1]];
    }
  }

  /** Where the first task of a function is; |tasks| if there is none. */
  function FirstIndex(tasks: seq<Record>, func: string): nat {
    if tasks == [] then 0 else if tasks[0].func == func then 0 else 1 + FirstIndex(tasks[1..], func)
  }

  lemma {:induction false} FirstIndexAppend(tasks: seq<Record>, t: Record, func: string)
    ensures FirstIndex(tasks, func) <= |tasks|
    ensures (exists u :: u in tasks && u.func == func) <==> FirstIndex(tasks, func) < |tasks|
    ensures FirstIndex(tasks + [t], func)
         == if FirstIndex(tasks, func) < |tasks| || t.func == func then FirstIndex(tasks, func) else |tasks| + 1
  {
    if tasks != [] {
      FirstIndexAppend(tasks[1..], t, func);
      assert (tasks + [t])[1..] == tasks[1..] + [t];
      assert tasks == [tasks[0]] + tasks[1..];
    } else {
      assert ([t])[1..] == [];
    }
  }

  /** The functions come in the order of their first tasks. */
  lemma {:induction false} FirstSeenInOrder(tasks: seq<Record>)
    ensures forall f :: f in FirstSeen(tasks) <==> FirstIndex(tasks, f) < |tasks|
    ensures forall i, j :: 0 <= i < j < |FirstSeen(tasks)| ==>
              FirstIndex(tasks, FirstSeen(tasks)[i]) < FirstIndex(tasks, FirstSeen(tasks)[j])
  {
    if tasks != [] {
      var n := |tasks| - 1;
      var init, t := tasks[..n], tasks[n];
      FirstSeenInOrder(init);
      assert tasks == init + [t];
      forall f ensures FirstIndex(tasks, f)
                    == if FirstIndex(init, f) < n || t.func == f then FirstIndex(init, f) else n + 1
               ensures FirstIndex(init, f) <= n
      {
        FirstIndexAppend(init, t, f);
      }
      var funcs := FirstSeen(init);
      forall i | 0 <= i < |funcs| ensures FirstIndex(init, funcs[i]) < n { assert funcs[i] in funcs; }
    }
  }

  lemma {:induction false} OfFuncMembers(tasks: seq<Record>, func: string)
    ensures forall t :: t in OfFunc(tasks, func) <==> t in tasks && t.func == func
  {
    if tasks != [] {
      OfFuncMembers(tasks[..|tasks| - 1], func);
      assert tasks == tasks[..|tasks| - 1] + [tasks[|tasks| - 1]];
    }
  }

  /** Grouping with an ordered dictionary. */
  method GroupByFunc(tasks: seq<Record>) returns (funcs: seq<string>, groups: map<string, seq<Record>>)
    ensures funcs == FirstSeen(tasks)
    ensures groups.Keys == set f | f in funcs
    ensures forall f :: f in groups ==> groups[f] == OfFunc(tasks, f)
  {
    funcs, groups := [], map[];
    for i := 0 to |tasks|
      invariant funcs == FirstSeen(tasks[..i])
      invariant groups.Keys == set f | f in funcs
      invariant forall f :: f in groups ==> groups[f] == OfFunc(tasks[..i], f)
      invariant forall f :: f !in groups ==> OfFunc(tasks[..i], f) == []
    {
      var func := tasks[i].func;
      assert tasks[..i + 1][..i] == tasks[..i];
      if func in groups {
        groups := groups[func := groups[func] + [tasks[i]]];
      } else {
        funcs := funcs + [func];
        groups := groups[func := [tasks[i]]];
      }
    }
    assert tasks[..|tasks|] == tasks;
  }

  /** The groups of `funcs`, one after the other. */
  function Grouped(tasks: seq<Record>, funcs: seq<string>): seq<Record> {
    if funcs == [] then [] else OfFunc(tasks, funcs[0]) + Grouped(tasks, funcs[1..])
  }

  lemma OfFuncAppend(tasks: seq<Record>, t: Record, f: string)
    ensures OfFunc(tasks + [t], f) == OfFunc(tasks, f) + if t.func == f then [t] else []
  {
    assert (tasks + [t])[..|tasks|] == tasks;
  }

  lemma {:induction false} GroupedAppend(tasks: seq<Record>, t: Record, funcs: seq<string>)
    requires NoRepeats(funcs)
    ensures multiset(Grouped(tasks + [t], funcs))
         == multiset(Grouped(tasks, funcs)) + (if t.func in funcs then multiset{t} else multiset{})
  {
    if funcs != [] {
      TailOf(funcs);
      GroupedAppend(tasks, t, funcs[1..]);
      OfFuncAppend(tasks, t, funcs[0]);
      var first, rest := OfFunc(tasks, funcs[0]), Grouped(tasks, funcs[1..]);
      var longer := Grouped(tasks + [t], funcs[1..]);
      if t.func == funcs[0] {
        assert t.func !in funcs[1..];
        assert multiset(first + [t] + longer) == multiset(first + rest) + multiset{t};
      } else {
        assert multiset(first + longer) == multiset(first) + multiset(longer);
      }
    }
  }

  lemma {:induction false} GroupedCovers(tasks: seq<Record>, funcs: seq<string>)
    requires NoRepeats(funcs)
    requires forall t :: t in tasks ==> t.func in funcs
    ensures multiset(Grouped(tasks, funcs)) == multiset(tasks)
  {
    if tasks == [] {
      GroupedEmpty(funcs);
    } else {
      var init, last := tasks[..|tasks| - 1], tasks[|tasks| - 1];
      assert tasks == init + [last];
      GroupedCovers(init, funcs);
      GroupedAppend(init, last, funcs);
    }
  }

  lemma {:induction false} GroupedEmpty(funcs: seq<string>)
    ensures Grouped([], funcs) == []
  {
    if funcs != [] {
      GroupedEmpty(funcs[1..]);
    }
  }

  /** Grouping is a partition: the groups together hold exactly the tasks, and each group holds
  the tasks of one function. */
  lemma GroupsPartition(tasks: seq<Record>)
    ensures multiset(Grouped(tasks, FirstSeen(tasks))) == multiset(tasks)
    ensures forall f, t :: t in OfFunc(tasks, f) <==> t in tasks && t.func == f
  {
    FirstSeenCovers(tasks);
    GroupedCovers(tasks, FirstSeen(tasks));
    forall f, t ensures t in OfFunc(tasks, f) <==> t in tasks && t.func == f {
      OfFuncMembers(tasks, f);
    }
  }

  lemma {:induction false} GroupedConcat(tasks: seq<Record>, a: seq<string>, b: seq<string>)
    ensures Grouped(tasks, a + b) == Grouped(tasks, a) + Grouped(tasks, b)
  {
    if a == [] {
      assert a + b == b;
    } else {
      assert (a + b)[1..] == a[1..] + b;
      GroupedConcat(tasks, a[1..], b);
    }
  }

  lemma GroupedSoFar(tasks: seq<Record>, funcs: seq<string>, i: nat)
    requires i < |funcs|
    ensures multiset(Ids(Grouped(tasks, funcs[..i + 1])))
         == multiset(Ids(Grouped(tasks, funcs[..i]))) + multiset(Ids(OfFunc(tasks, funcs[i])))
  {
    assert funcs[..i + 1] == funcs[..i] + [funcs[i]];
    GroupedConcat(tasks, funcs[..i], [funcs[i]]);
    assert Grouped(tasks, [funcs[i]]) == OfFunc(tasks, funcs[i]) + Grouped(tasks, []) == OfFunc(tasks, funcs[i]);
    IdsConcat(Grouped(tasks, funcs[..i]), OfFunc(tasks, funcs[i]));
  }

  /** `positions` shows that `part` is a subsequence of `whole`. */
  ghost predicate KeepsOrder(whole: seq<Record>, part: seq<Record>, positions: seq<nat>) {
    && |positions| == |part|
    && (forall i :: 0 <= i < |part| ==> positions[i] < |whole| && whole[positions[i]] == part[i])
    && (forall i, j :: 0 <= i < j < |part| ==> positions[i] < positions[j])
  }

  /** Each group keeps the order of the tasks. */
  lemma {:induction false} PositionsOf(tasks: seq<Record>, f: string) returns (positions: seq<nat>)
    ensures KeepsOrder(tasks, OfFunc(tasks, f), positions)
  {
    if tasks == [] {
      positions := [];
    } else {
      var n := |tasks| - 1;
      positions := PositionsOf(tasks[..n], f);
      if tasks[n].func == f {
        positions := positions + [n];
      }
    }
  }

  lemma IdsConcat(a: seq<Record>, b: seq<Record>)
    ensures Ids(a + b) == Ids(a) + Ids(b)
  {}

  lemma Without<T>(s: seq<T>, i: nat)
    requires i < |s|
    ensures multiset(s) == multiset(s[..i] + s[i + 1..]) + multiset{s[i]}
  {
    assert s == s[..i] + [s[i]] + s[i + 1..];
  }

  lemma IdsWithout(s: seq<Record>, i: nat)
    requires i < |s|
    ensures multiset(Ids(s)) == multiset(Ids(s[..i] + s[i + 1..])) + multiset{s[i].id}
  {
    Without(Ids(s), i);
    assert Ids(s)[..i] + Ids(s)[i + 1..] == Ids(s[..i] + s[i + 1..]);
  }

  lemma SameWithout<T>(a: seq<T>, b: seq<T>) returns (i: nat)
    requires a != [] && multiset(a) == multiset(b)
    ensures i < |b| && b[i] == a[0] && multiset(a[1..]) == multiset(b[..i] + b[i + 1..])
  {
    assert a[0] in multiset(b);
    i :| 0 <= i < |b| && b[i] == a[0];
    Without(b, i);
    assert a == [a[0]] + a[1..];
    assert multiset(a[1..]) == multiset(a) - multiset{a[0]};
  }

  /** The tasks among the first |flags| that are flagged as `flag`, in their order. */
  function Chosen(tasks: seq<Record>, flags: seq<bool>, flag: bool): seq<Record>
    requires |flags| <= |tasks|
  {
    if flags == [] then []
    else
      var n := |flags| - 1;
      Chosen(tasks, flags[..n], flag) + if flags[n] == flag then [tasks[n]] else []
  }

  lemma ChosenMore(tasks: seq<Record>, flags: seq<bool>, flag: bool)
    requires |flags| < |tasks|
    ensures Chosen(tasks, flags + [flag], flag) == Chosen(tasks, flags, flag) + [tasks[|flags|]]
    ensures Chosen(tasks, flags + [flag], !flag) == Chosen(tasks, flags, !flag)
  {
    assert (flags + [flag])[..|flags|] == flags;
  }

  /** The two parts make up the tasks. */
  lemma {:induction false} ChosenAll(tasks: seq<Record>, flags: seq<bool>)
    requires |flags| <= |tasks|
    ensures multiset(Ids(Chosen(tasks, flags, true))) + multiset(Ids(Chosen(tasks, flags, false)))
         == multiset(Ids(tasks[..|flags|]))
    ensures |flags| == |tasks| ==> tasks[..|flags|] == tasks
  {
    if flags != [] {
      var n, f := |flags| - 1, flags[|flags| - 1];
      ChosenAll(tasks, flags[..n]);
      assert Chosen(tasks, flags, f) == Chosen(tasks, flags[..n], f) + [tasks[n]];
      assert Chosen(tasks, flags, !f) == Chosen(tasks, flags[..n], !f) + [] == Chosen(tasks, flags[..n], !f);
      assert tasks[..|flags|][..n] == tasks[..n];
      IdsConcat(Chosen(tasks, flags[..n], f), [tasks[n]]);
      IdsConcat(tasks[..n], [tasks[n]]);
      assert tasks[..n + 1] == tasks[..n] + [tasks[n]];
      assert Ids([tasks[n]]) == [tasks[n].id];
    }
  }

  /** Equal multisets of tasks have equal multisets of ids. */
  lemma {:induction false} IdsOfSameTasks(a: seq<Record>, b: seq<Record>)
    requires multiset(a) == multiset(b)
    ensures multiset(Ids(a)) == multiset(Ids(b))
    decreases |a|
  {
    if a == [] {
      assert |multiset(b)| == 0;
      assert b == [];
    } else {
      var i := SameWithout(a, b);
      IdsOfSameTasks(a[1..], b[..i] + b[i + 1..]);
      IdsWithout(b, i);
      assert Ids(a) == [a[0].id] + Ids(a[1..]);
    }
  }
}
