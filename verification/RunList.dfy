/** Expanding tests into runs: each test as often as its reseed value, interleaved. */
module RunList {

  datatype Test = Test(name: string, buildMode: string, reseed: int)

  /** The index-th run of a test. */
  datatype Run = Run(index: nat, test: Test)

  // ---- stable sorting by index ----

  predicate Sorted(l: seq<Run>) {
    forall i, j :: 0 <= i < j < |l| ==> l[i].index <= l[j].index
  }

  /** The runs with one index, in order. */
  function WithIndex(l: seq<Run>, k: nat): (r: seq<Run>)
    ensures forall x :: x in r ==> x.index == k
  {
    if l == [] then []
    else
      var x := l[|l| - 1];
      WithIndex(l[..|l| - 1], k) + if x.index == k then [x] else []
  }

  /** Sorted by index, and runs with the same index in the same order as before. */
  ghost predicate StablySorted(before: seq<Run>, after: seq<Run>) {
    Sorted(after) && forall k :: WithIndex(after, k) == WithIndex(before, k)
  }

  lemma {:induction false} WithIndexConcat(a: seq<Run>, b: seq<Run>, k: nat)
    ensures WithIndex(a + b, k) == WithIndex(a, k) + WithIndex(b, k)
  {
    hide WithIndex;
    if b == [] {
      assert a + b == a;
      WithIndexEmpty(k);
    } else {
      var n := |b| - 1;
      var front, last: Run := b[..n], b[n];
      WithIndexConcat(a, front, k);
      WithIndexMore(a + front, last, k);
      WithIndexMore(front, last, k);
      assert a + b == (a + front) + [last] && b == front + [last];
    }
  }

  lemma WithIndexEmpty(k: nat)
    ensures WithIndex([], k) == []
  {
  }

  lemma WithIndexMore(l: seq<Run>, x: Run, k: nat)
    ensures WithIndex(l + [x], k) == WithIndex(l, k) + if x.index == k then [x] else []
  {
    assert (l + [x])[..|l|] == l;
  }

  /** Inserts after all runs with an index that is not larger. */
  function Insert(l: seq<Run>, x: Run): seq<Run> {
    if l == [] || l[|l| - 1].index <= x.index then l + [x]
    else Insert(l[..|l| - 1], x) + [l[|l| - 1]]
  }

  lemma {:induction false} InsertMembers(l: seq<Run>, x: Run)
    ensures forall y :: y in Insert(l, x) <==> y in l || y == x
  {
    if l != [] && l[|l| - 1].index > x.index {
      InsertMembers(l[..|l| - 1], x);
      assert l == l[..|l| - 1] + [l[|l| - 1]];
    }
  }

  lemma {:induction false} InsertSorted(l: seq<Run>, x: Run)
    requires Sorted(l)
    ensures Sorted(Insert(l, x))
  {
    if l != [] && l[|l| - 1].index > x.index {
      var front, last := l[..|l| - 1], l[|l| - 1];
      InsertSorted(front, x);
      InsertMembers(front, x);
      forall y | y in Insert(front, x) ensures y.index <= last.index {
        if y in front {
          var i :| 0 <= i < |front| && front[i] == y;
          assert l[i] == y;
        }
      }
      var r := Insert(front, x);
      forall i | 0 <= i < |r| ensures r[i].index <= last.index { assert r[i] in r; }
    } else {
      forall i | 0 <= i < |l| ensures l[i].index <= x.index {}
    }
  }

  lemma {:induction false} InsertStable(l: seq<Run>, x: Run, k: nat)
    requires Sorted(l)
    ensures WithIndex(Insert(l, x), k) == WithIndex(l + [x], k)
  {
    hide WithIndex;
    if l != [] && l[|l| - 1].index > x.index {
      InsertStable(l[..|l| - 1], x, k);
      InsertPast(l[..|l| - 1], l[|l| - 1], x, k);
      assert l == l[..|l| - 1] + [l[|l| - 1]];
    }
  }

  lemma InsertPast(front: seq<Run>, last: Run, x: Run, k: nat)
    requires last.index > x.index && WithIndex(Insert(front, x), k) == WithIndex(front + [x], k)
    ensures WithIndex(Insert(front, x) + [last], k) == WithIndex(front + [last] + [x], k)
  {
    hide *;
    WithIndexConcat(front, [x], k);
    WithIndexConcat(Insert(front, x), [last], k);
    WithIndexConcat(front + [last], [x], k);
    WithIndexConcat(front, [last], k);
    WithIndexOne(x, k);
    WithIndexOne(last, k);
  }

  lemma WithIndexOne(x: Run, k: nat)
    ensures WithIndex([x], k) == if x.index == k then [x] else []
  {
  }

  lemma InsertKeeps(before: seq<Run>, l: seq<Run>, x: Run)
    requires StablySorted(before, l)
    ensures StablySorted(before + [x], Insert(l, x))
  {
    hide WithIndex, Sorted;
    InsertSorted(l, x);
    forall k: nat ensures WithIndex(Insert(l, x), k) == WithIndex(before + [x], k) {
      InsertStable(l, x, k);
      WithIndexConcat(l, [x], k);
      WithIndexConcat(before, [x], k);
    }
  }

  /** The library's sort by key, which is stable. */
  method StableSort(l: seq<Run>) returns (r: seq<Run>)
    ensures StablySorted(l, r)
  {
    r := [];
    for i := 0 to |l|
      invariant StablySorted(l[..i], r)
    {
      hide StablySorted;
      assert l[..i] + [l[i]] == l[..i + 1];
      InsertKeeps(l[..i], r, l[i]);
      r := Insert(r, l[i]);
    }
    assert l[..|l|] == l;
  }

  /** The runs in order of index, round by round. */
  function ByRounds(l: seq<Run>, rounds: nat): seq<Run> {
    if rounds == 0 then [] else ByRounds(l, rounds - 1) + WithIndex(l, rounds - 1)
  }

  lemma {:induction false} WithIndexNone(l: seq<Run>, k: nat)
    requires forall x :: x in l ==> x.index != k
    ensures WithIndex(l, k) == []
  {
    if l != [] {
      assert l[|l| - 1] in l;
      WithIndexNone(l[..|l| - 1], k);
    }
  }

  lemma {:induction false} WithIndexSame(l: seq<Run>, k: nat)
    requires forall x :: x in l ==> x.index == k
    ensures WithIndex(l, k) == l
  {
    if l != [] {
      assert l[|l| - 1] in l;
      WithIndexSame(l[..|l| - 1], k);
      assert l == l[..|l| - 1] + [l[|l| - 1]];
    }
  }

  ghost predicate Below(l: seq<Run>, k: nat) {
    forall i :: 0 <= i < |l| ==> l[i].index < k
  }

  lemma BelowPositive(l: seq<Run>, k: nat)
    requires Below(l, k)
    ensures l == [] || k > 0
  {
    if l != [] { assert l[0].index < k; }
  }

  /** A sorted list is its rounds in turn: sorting stably leaves no choice. */
  lemma {:induction false} SortedIsByRounds(l: seq<Run>, rounds: nat)
    requires Sorted(l) && Below(l, rounds)
    ensures l == ByRounds(l, rounds)
    decreases rounds
  {
    hide *;
    if rounds == 0 {
      NoRounds(l);
    } else {
      var a, b := SplitAt(l, rounds - 1);
      SortedIsByRounds(a, rounds - 1);
      LastRound(a, b, rounds);
    }
  }

  lemma NoRounds(l: seq<Run>)
    requires Below(l, 0)
    ensures l == ByRounds(l, 0)
  {
    BelowPositive(l, 0);
  }

  lemma LastRound(a: seq<Run>, b: seq<Run>, rounds: nat)
    requires rounds > 0 && Below(a, rounds - 1) && forall x :: x in b ==> x.index == rounds - 1
    ensures ByRounds(a + b, rounds) == ByRounds(a, rounds - 1) + b
  {
    hide WithIndex;
    var k: nat := rounds - 1;
    WithIndexConcat(a, b, k);
    WithIndexNone(a, k);
    WithIndexSame(b, k);
    RoundsOfPrefix(a, b, k);
  }

  lemma SplitAt(l: seq<Run>, k: nat) returns (a: seq<Run>, b: seq<Run>)
    requires Sorted(l) && Below(l, k + 1)
    ensures l == a + b && Sorted(a) && Below(a, k)
    ensures forall x :: x in b ==> x.index == k
  {
    var n: nat := |l|;
    while n > 0 && l[n - 1].index == k
      invariant n <= |l| && forall x :: x in l[n..] ==> x.index == k
    {
      assert l[n - 1..] == [l[n - 1]] + l[n..];
      n := n - 1;
    }
    a, b := l[..n], l[n..];
  }

  lemma {:induction false} RoundsOfPrefix(a: seq<Run>, b: seq<Run>, rounds: nat)
    requires forall x :: x in b ==> x.index >= rounds
    ensures ByRounds(a + b, rounds) == ByRounds(a, rounds)
  {
    hide WithIndex;
    if rounds > 0 {
      RoundsOfPrefix(a, b, rounds - 1);
      WithIndexConcat(a, b, rounds - 1);
      WithIndexNone(b, rounds - 1);
    }
  }

  lemma {:induction false} SameRounds(a: seq<Run>, b: seq<Run>, rounds: nat)
    requires forall k :: WithIndex(a, k) == WithIndex(b, k)
    ensures ByRounds(a, rounds) == ByRounds(b, rounds)
  {
    if rounds > 0 { SameRounds(a, b, rounds - 1); }
  }

  // ---- round-robin ----

  /** Round j: the tests with a reseed value above j, in order. */
  function Round(tests: seq<Test>, j: nat): seq<Run> {
    if tests == [] then []
    else
      var t := tests[|tests| - 1];
      Round(tests[..|tests| - 1], j) + if t.reseed > j then [Run(j, t)] else []
  }

  function RoundRobin(tests: seq<Test>, rounds: nat): seq<Run> {
    if rounds == 0 then [] else RoundRobin(tests, rounds - 1) + Round(tests, rounds - 1)
  }

  function MaxReseed(tests: seq<Test>): (n: nat)
    ensures forall t :: t in tests ==> t.reseed <= n
  {
    if tests == [] then 0
    else
      assert tests == tests[..|tests| - 1] + [tests[|tests| - 1]];
      var m, r := MaxReseed(tests[..|tests| - 1]), tests[|tests| - 1].reseed;
      if r > m then r else m
  }

  function Count<T(==)>(l: seq<T>, x: T): nat {
    if l == [] then 0 else Count(l[..|l| - 1], x) + if l[|l| - 1] == x then 1 else 0
  }

  lemma {:induction false} CountConcat<T>(a: seq<T>, b: seq<T>, x: T)
    ensures Count(a + b, x) == Count(a, x) + Count(b, x)
  {
    if b == [] {
      assert a + b == a;
    } else {
      CountConcat(a, b[..|b| - 1], x);
      assert (a + b)[..|a + b| - 1] == a + b[..|b| - 1];
    }
  }

  lemma CountOne<T>(x: T, y: T)
    ensures Count([y], x) == (if y == x then 1 else 0) && Count([], x) == 0
  {
  }

  /** Round j holds the j-th run of a test as often as the test is listed, if its reseed value is above j. */
  lemma {:induction false} RoundCounts(tests: seq<Test>, j: nat, t: Test, i: nat)
    ensures Count(Round(tests, j), Run(i, t)) == if i == j && t.reseed > j then Count(tests, t) else 0
  {
    if tests != [] {
      var front, last := tests[..|tests| - 1], tests[|tests| - 1];
      RoundCounts(front, j, t, i);
      var more := if last.reseed > j then [Run(j, last)] else [];
      assert Round(tests, j) == Round(front, j) + more;
      CountConcat(Round(front, j), more, Run(i, t));
      CountOne(Run(i, t), Run(j, last));
    }
  }

  lemma {:induction false} RoundRobinCounts(tests: seq<Test>, rounds: nat, t: Test, i: nat)
    ensures Count(RoundRobin(tests, rounds), Run(i, t)) == if i < rounds && i < t.reseed then Count(tests, t) else 0
  {
    if rounds > 0 {
      hide Round, Count;
      RoundRobinCounts(tests, rounds - 1, t, i);
      RoundCounts(tests, rounds - 1, t, i);
      CountConcat(RoundRobin(tests, rounds - 1), Round(tests, rounds - 1), Run(i, t));
    } else {
      CountOne(Run(i, t), Run(i, t));
    }
  }

  lemma {:induction false} CountZero<T>(l: seq<T>, x: T)
    ensures Count(l, x) > 0 <==> x in l
  {
    if l != [] { CountZero(l[..|l| - 1], x); }
  }

  /** Each listed test has exactly the runs 0 to reseed - 1, each as often as the test is listed. */
  lemma EveryRunOnce(tests: seq<Test>, t: Test, i: nat)
    ensures Count(RoundRobin(tests, MaxReseed(tests)), Run(i, t)) == if i < t.reseed then Count(tests, t) else 0
  {
    hide Count, RoundRobin;
    RoundRobinCounts(tests, MaxReseed(tests), t, i);
    CountZero(tests, t);
  }

  // ---- the source's way ----

  /** The runs of one test, tagged with their index. */
  function Tagged(t: Test, n: nat): seq<Run> {
    if n == 0 then [] else Tagged(t, n - 1) + [Run(n - 1, t)]
  }

  function Times(t: Test): nat {
    if t.reseed < 0 then 0 else t.reseed
  }

  lemma {:induction false} TaggedWithIndex(t: Test, n: nat, k: nat)
    ensures WithIndex(Tagged(t, n), k) == if k < n then [Run(k, t)] else []
  {
    if n > 0 {
      TaggedWithIndex(t, n - 1, k);
      TaggedMore(t, n - 1, k);
    }
  }

  lemma TaggedMore(t: Test, n: nat, k: nat)
    ensures WithIndex(Tagged(t, n + 1), k) == WithIndex(Tagged(t, n), k) + if n == k then [Run(n, t)] else []
  {
    hide WithIndex;
    WithIndexConcat(Tagged(t, n), [Run(n, t)], k);
    WithIndexOne(Run(n, t), k);
  }

  lemma {:induction false} TaggedBelow(t: Test, n: nat)
    ensures Below(Tagged(t, n), n)
  {
    if n > 0 { TaggedBelow(t, n - 1); }
  }

  /** Main theorem: tagging the runs test by test and sorting them stably by index gives the rounds in turn. */
  method ExpandRunList(tests: seq<Test>) returns (runs: seq<Run>)
    ensures runs == RoundRobin(tests, MaxReseed(tests))
  {
    var tagged: seq<Run> := [];
    ghost var top := MaxReseed(tests);
    for i := 0 to |tests|
      invariant forall k :: WithIndex(tagged, k) == Round(tests[..i], k)
      invariant Below(tagged, top)
    {
      hide WithIndex, Round, MaxReseed;
      var test := tests[i];
      ghost var before := tagged;
      assert test in tests;
      for index := 0 to Times(test)
        invariant tagged == before + Tagged(test, index)
      {
        tagged := tagged + [Run(index, test)];
      }
      forall k: nat ensures WithIndex(tagged, k) == Round(tests[..i + 1], k) {
        TaggedWithIndex(test, Times(test), k);
        WithIndexConcat(before, Tagged(test, Times(test)), k);
        RoundMore(tests, i, k);
      }
      TaggedBelow(test, Times(test));
    }
    assert tests[..|tests|] == tests;
    runs := StableSort(tagged);
    StableMembers(tagged, runs, top);
    SortedIsByRounds(runs, top);
    SameRounds(runs, tagged, top);
    RoundsAreRoundRobin(tagged, tests, top);
  }

  lemma RoundMore(tests: seq<Test>, i: nat, k: nat)
    requires i < |tests|
    ensures Round(tests[..i + 1], k) == Round(tests[..i], k) + if k < Times(tests[i]) then [Run(k, tests[i])] else []
  {
    assert tests[..i + 1][..i] == tests[..i];
  }

  lemma {:induction false} WithIndexMember(l: seq<Run>, x: Run)
    ensures x in l <==> x in WithIndex(l, x.index)
  {
    if l != [] {
      WithIndexMember(l[..|l| - 1], x);
      assert l == l[..|l| - 1] + [l[|l| - 1]];
    }
  }

  lemma StableMembers(before: seq<Run>, after: seq<Run>, top: nat)
    requires StablySorted(before, after) && Below(before, top)
    ensures Below(after, top)
  {
    forall x | x in after ensures x.index < top {
      WithIndexMember(after, x);
      WithIndexMember(before, x);
    }
  }

  lemma {:induction false} RoundsAreRoundRobin(tagged: seq<Run>, tests: seq<Test>, rounds: nat)
    requires forall k :: WithIndex(tagged, k) == Round(tests, k)
    ensures ByRounds(tagged, rounds) == RoundRobin(tests, rounds)
  {
    if rounds > 0 { RoundsAreRoundRobin(tagged, tests, rounds - 1); }
  }
}
