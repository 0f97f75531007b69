/** The containers a scheduler keeps its jobs in, and when they agree with the job statuses. */
module SchedulerBoxes {
  import opened Wrappers
  import opened SchedulerProtocol

  /** Lists per target (queued, running), sets per target (passed, failed, killed), and the waiting jobs. */
  type Lists = map<Target, seq<Job>>
  type Sets = map<Target, set<Job>>
  type Waiting = map<Target, map<Cfg, seq<Job>>>

  // ---- which jobs belong where ----

  ghost function OfTarget(items: seq<Job>, t: Target): set<Job> {
    set j | j in items && j.target == t
  }

  ghost function At(items: seq<Job>, s: Statuses, t: Target, st: Status): set<Job> {
    set j | j in items && j.target == t && j in s && s[j] == st
  }

  ghost function Unstarted(items: seq<Job>, s: Statuses, t: Target): set<Job> {
    set j | j in items && j.target == t && j !in s
  }

  /** A change of one status moves one job. */
  lemma AtChange(items: seq<Job>, s: Statuses, x: Job, now: Status)
    requires x in items
    ensures forall t, st {:trigger At(items, s[x := now], t, st)} ::
      At(items, s[x := now], t, st) ==
      (if t == x.target && st == now then At(items, s, t, st) + {x} else At(items, s, t, st) - {x})
    ensures forall t {:trigger Unstarted(items, s[x := now], t)} ::
      Unstarted(items, s[x := now], t) == Unstarted(items, s, t) - {x}
  {
  }

  // ---- lists ----

  /** The list holds each job of the set once. */
  ghost predicate Holds(l: seq<Job>, js: set<Job>) {
    Distinct(l) && forall j :: j in l <==> j in js
  }

  function RemoveAt<T>(l: seq<T>, i: nat): seq<T>
    requires i < |l|
  {
    l[..i] + l[i + 1..]
  }

  function RemoveFirst<T(==)>(l: seq<T>, x: T): seq<T> {
    if l == [] then [] else if l[0] == x then l[1..] else [l[0]] + RemoveFirst(l[1..], x)
  }

  lemma HoldsRemoveAt(l: seq<Job>, i: nat, js: set<Job>)
    requires Holds(l, js) && i < |l|
    ensures Holds(RemoveAt(l, i), js - {l[i]})
  {
    var r := RemoveAt(l, i);
    assert forall k :: 0 <= k < |r| ==> r[k] == l[if k < i then k else k + 1];
    forall j ensures j in r <==> j in js - {l[i]} {
      if j in l && j != l[i] {
        var k :| 0 <= k < |l| && l[k] == j;
        assert r[if k < i then k else k - 1] == j;
      }
    }
  }

  lemma {:induction false} RemoveFirstIsRemoveAt<T>(l: seq<T>, i: nat)
    requires i < |l| && l[i] !in l[..i]
    ensures RemoveFirst(l, l[i]) == RemoveAt(l, i)
  {
    if i > 0 {
      assert l[1..][..i - 1] == l[..i][1..];
      RemoveFirstIsRemoveAt(l[1..], i - 1);
    }
  }

  lemma {:induction false} RemoveFirstAbsent<T>(l: seq<T>, x: T)
    requires x !in l
    ensures RemoveFirst(l, x) == l
  {
    if l != [] { RemoveFirstAbsent(l[1..], x); }
  }

  lemma HoldsRemoveFirst(l: seq<Job>, x: Job, js: set<Job>)
    requires Holds(l, js)
    ensures Holds(RemoveFirst(l, x), js - {x})
    ensures x in l ==> |RemoveFirst(l, x)| == |l| - 1
    ensures x !in l ==> RemoveFirst(l, x) == l
  {
    if i :| 0 <= i < |l| && l[i] == x {
      RemoveFirstIsRemoveAt(l, i);
      HoldsRemoveAt(l, i, js);
    } else {
      RemoveFirstAbsent(l, x);
      assert js - {x} == js;
    }
  }

  lemma HoldsAdd(l: seq<Job>, x: Job, js: set<Job>)
    requires Holds(l, js) && x !in js
    ensures Holds(l + [x], js + {x})
  {
  }

  lemma {:induction false} HoldsCount(l: seq<Job>, js: set<Job>)
    requires Holds(l, js)
    ensures |l| == |js|
  {
    if l == [] {
      assert js == {};
    } else {
      HoldsCount(l[1..], js - {l[0]});
    }
  }

  // ---- boxes ----

  /** No list has lost a job or changed the order of its jobs. */
  ghost predicate ListsGrow(was: Lists, now: Lists) {
    forall t :: t in was ==> t in now && was[t] <= now[t]
  }

  lemma ListsSame(l: Lists)
    ensures ListsGrow(l, l)
  {
  }

  lemma ListsGrowOn(was: Lists, mid: Lists, now: Lists)
    requires ListsGrow(was, mid) && ListsGrow(mid, now)
    ensures ListsGrow(was, now)
  {
    forall t | t in was ensures t in now && was[t] <= now[t] {
      assert was[t] == mid[t][..|was[t]|] == now[t][..|was[t]|];
    }
  }

  ghost predicate Keyed(items: seq<Job>, keys: set<Target>) {
    forall t :: t in keys <==> t in TargetsOf(items)
  }

  /** Jobs in limbo have left their list for a moment. */
  ghost predicate ListBox(items: seq<Job>, s: Statuses, box: Lists, st: Status, limbo: set<Job>) {
    Keyed(items, box.Keys) && forall t :: t in box ==> Holds(box[t], At(items, s, t, st) - limbo)
  }

  ghost predicate SetBox(items: seq<Job>, s: Statuses, box: Sets, st: Status) {
    Keyed(items, box.Keys) && forall t :: t in box ==> box[t] == At(items, s, t, st)
  }

  /** Waiting jobs of one target, by cfg; a cfg without waiting jobs has no key. */
  ghost predicate HoldsByCfg(m: map<Cfg, seq<Job>>, js: set<Job>) {
    && (forall c :: c in m ==> m[c] != [] && Distinct(m[c]))
    && (forall c, j :: c in m && j in m[c] ==> j.cfg == c && j in js)
    && (forall j :: j in js ==> j.cfg in m && j in m[j.cfg])
  }

  ghost predicate WaitBox(items: seq<Job>, s: Statuses, box: Waiting) {
    && Keyed(items, box.Keys) && (forall t :: t in box ==> HoldsByCfg(box[t], Unstarted(items, s, t)))
    && InOrder(items, s, box)
  }

  /** The waiting jobs of a target and cfg in the order they were given. */
  function WaitingList(items: seq<Job>, s: Statuses, t: Target, c: Cfg): seq<Job> {
    if items == [] then []
    else
      var n := |items| - 1;
      var j := items[n];
      WaitingList(items[..n], s, t, c) +
      if j.target == t && j.cfg == c && j !in s && j !in items[..n] then [j] else []
  }

  ghost predicate InOrder(items: seq<Job>, s: Statuses, box: Waiting) {
    forall t, c :: t in box && c in box[t] ==> box[t][c] == WaitingList(items, s, t, c)
  }

  lemma {:induction false} WaitingListKeep(items: seq<Job>, s: Statuses, x: Job, now: Status, t: Target, c: Cfg)
    requires x in s || x.target != t || x.cfg != c
    ensures WaitingList(items, s[x := now], t, c) == WaitingList(items, s, t, c)
  {
    if items != [] { WaitingListKeep(items[..|items| - 1], s, x, now, t, c); }
  }

  lemma {:induction false} WaitingListMembers(items: seq<Job>, s: Statuses, t: Target, c: Cfg)
    ensures forall j :: j in WaitingList(items, s, t, c) <==> j in items && j.target == t && j.cfg == c && j !in s
  {
    if items != [] {
      var n := |items| - 1;
      WaitingListMembers(items[..n], s, t, c);
      assert items == items[..n] + [items[n]];
    }
  }

  lemma {:induction false} RemoveFirstOfMore(l: seq<Job>, x: Job, j: Job)
    ensures RemoveFirst(l + [j], x) == if x in l then RemoveFirst(l, x) + [j] else if x == j then l else l + [j]
  {
    if l != [] {
      RemoveFirstOfMore(l[1..], x, j);
      assert (l + [j])[1..] == l[1..] + [j];
    } else {
      assert RemoveFirst([j], x) == if j == x then [] else [j] + RemoveFirst([], x);
    }
  }

  lemma {:induction false} WaitingListDrop(items: seq<Job>, s: Statuses, x: Job, now: Status)
    requires x !in s
    ensures WaitingList(items, s[x := now], x.target, x.cfg) ==
            RemoveFirst(WaitingList(items, s, x.target, x.cfg), x)
  {
    if items != [] {
      var n := |items| - 1;
      var front, j := items[..n], items[n];
      var t := s[x := now];
      WaitingListDrop(front, s, x, now);
      WaitingListMembers(front, s, x.target, x.cfg);
      WaitingListNext(items, s, x.target, x.cfg);
      WaitingListNext(items, t, x.target, x.cfg);
      hide WaitingList;
      var l := WaitingList(front, s, x.target, x.cfg);
      if x !in l { RemoveFirstAbsent(l, x); }
      RemoveFirstOfMore(l, x, j);
      hide RemoveFirst;
    }
  }

  lemma WaitingListNext(items: seq<Job>, s: Statuses, t: Target, c: Cfg)
    requires items != []
    ensures var front, j := items[..|items| - 1], items[|items| - 1];
            var l := WaitingList(front, s, t, c);
            WaitingList(items, s, t, c) ==
              if j.target == t && j.cfg == c && j !in s && j !in front then l + [j] else l
  {
  }

  lemma InOrderKeep(items: seq<Job>, s: Statuses, box: Waiting, x: Job, now: Status)
    requires InOrder(items, s, box) && x in s
    ensures InOrder(items, s[x := now], box)
  {
    forall t, c | t in box && c in box[t] ensures box[t][c] == WaitingList(items, s[x := now], t, c) {
      WaitingListKeep(items, s, x, now, t, c);
    }
  }

  lemma InOrderDrop(items: seq<Job>, s: Statuses, box: Waiting, x: Job, now: Status)
    requires InOrder(items, s, box) && x !in s && x.target in box && x.cfg in box[x.target]
    ensures InOrder(items, s[x := now], box[x.target := Without(box[x.target], x)])
  {
    var after := box[x.target := Without(box[x.target], x)];
    forall t, c | t in after && c in after[t] ensures after[t][c] == WaitingList(items, s[x := now], t, c) {
      if t == x.target && c == x.cfg {
        WaitingListDrop(items, s, x, now);
      } else {
        WaitingListKeep(items, s, x, now, t, c);
      }
    }
  }

  lemma ListKeep(items: seq<Job>, s: Statuses, box: Lists, st: Status, limbo: set<Job>, x: Job, now: Status)
    requires ListBox(items, s, box, st, limbo)
    requires x in items && now != st && (x in limbo || x !in s || s[x] != st)
    ensures ListBox(items, s[x := now], box, st, limbo - {x})
  {
    AtChange(items, s, x, now);
    forall t | t in box ensures At(items, s[x := now], t, st) - (limbo - {x}) == At(items, s, t, st) - limbo {}
  }

  lemma ListAdd(items: seq<Job>, s: Statuses, box: Lists, st: Status, limbo: set<Job>, x: Job)
    requires ListBox(items, s, box, st, limbo)
    requires x in items && x.target in box && (x !in s || s[x] != st)
    ensures ListBox(items, s[x := st], box[x.target := box[x.target] + [x]], st, limbo - {x})
  {
    AtChange(items, s, x, st);
    HoldsAdd(box[x.target], x, At(items, s, x.target, st) - limbo);
    forall t | t in box ensures At(items, s[x := st], t, st) - (limbo - {x}) ==
      if t == x.target then (At(items, s, t, st) - limbo) + {x} else At(items, s, t, st) - limbo {}
  }

  /** Whichever way x is taken off the list. */
  lemma ListDrop(items: seq<Job>, s: Statuses, box: Lists, st: Status, limbo: set<Job>, x: Job, now: Status,
                 l: seq<Job>)
    requires ListBox(items, s, box, st, limbo)
    requires x in items && x.target in box && now != st && x !in limbo
    requires Holds(l, At(items, s, x.target, st) - limbo - {x})
    ensures ListBox(items, s[x := now], box[x.target := l], st, limbo)
  {
    AtChange(items, s, x, now);
    forall t | t in box ensures At(items, s[x := now], t, st) - limbo ==
      if t == x.target then At(items, s, t, st) - limbo - {x} else At(items, s, t, st) - limbo {}
  }

  lemma ListToLimbo(items: seq<Job>, s: Statuses, box: Lists, st: Status, limbo: set<Job>, t: Target)
    requires ListBox(items, s, box, st, limbo) && t in box && box[t] != []
    ensures ListBox(items, s, box[t := box[t][1..]], st, limbo + {box[t][0]})
    ensures box[t][0] in At(items, s, t, st) - limbo
  {
    var x := box[t][0];
    assert x in box[t];
    HoldsRemoveAt(box[t], 0, At(items, s, t, st) - limbo);
    assert RemoveAt(box[t], 0) == box[t][1..];
    assert x in At(items, s, t, st);
    forall u | u in box ensures At(items, s, u, st) - (limbo + {x}) ==
      if u == t then At(items, s, u, st) - limbo - {x} else At(items, s, u, st) - limbo {}
  }

  lemma SetKeep(items: seq<Job>, s: Statuses, box: Sets, st: Status, x: Job, now: Status)
    requires SetBox(items, s, box, st)
    requires x in items && now != st && (x !in s || s[x] != st)
    ensures SetBox(items, s[x := now], box, st)
  {
    AtChange(items, s, x, now);
    forall t | t in box ensures At(items, s[x := now], t, st) == At(items, s, t, st) {}
  }

  lemma SetAdd(items: seq<Job>, s: Statuses, box: Sets, st: Status, x: Job)
    requires SetBox(items, s, box, st)
    requires x in items && x.target in box
    ensures SetBox(items, s[x := st], box[x.target := box[x.target] + {x}], st)
  {
    AtChange(items, s, x, st);
    forall t | t in box && t != x.target ensures At(items, s[x := st], t, st) == At(items, s, t, st) {}
  }

  /** The waiting jobs of a target without x: a cfg left without jobs loses its key. */
  function Without(m: map<Cfg, seq<Job>>, x: Job): map<Cfg, seq<Job>> {
    if x.cfg !in m then m
    else
      var l := RemoveFirst(m[x.cfg], x);
      if l == [] then m - {x.cfg} else m[x.cfg := l]
  }

  lemma HoldsByCfgWithout(m: map<Cfg, seq<Job>>, js: set<Job>, x: Job)
    requires HoldsByCfg(m, js)
    ensures HoldsByCfg(Without(m, x), js - {x})
    ensures x !in js ==> Without(m, x) == m
  {
    if x.cfg in m {
      var l, own := m[x.cfg], set j | j in js && j.cfg == x.cfg;
      HoldsRemoveFirst(l, x, own);
    }
  }

  lemma WaitKeep(items: seq<Job>, s: Statuses, box: Waiting, x: Job, now: Status)
    requires WaitBox(items, s, box) && x in items && x in s
    ensures WaitBox(items, s[x := now], box)
  {
    AtChange(items, s, x, now);
    InOrderKeep(items, s, box, x, now);
    forall t | t in box ensures Unstarted(items, s[x := now], t) == Unstarted(items, s, t) {}
  }

  lemma WaitDrop(items: seq<Job>, s: Statuses, box: Waiting, x: Job, now: Status)
    requires WaitBox(items, s, box) && x in items && x.target in box && x !in s
    ensures WaitBox(items, s[x := now], box[x.target := Without(box[x.target], x)])
  {
    assert x in Unstarted(items, s, x.target);
    InOrderDrop(items, s, box, x, now);
    AtChange(items, s, x, now);
    HoldsByCfgWithout(box[x.target], Unstarted(items, s, x.target), x);
    forall t | t in box && t != x.target ensures Unstarted(items, s[x := now], t) == Unstarted(items, s, t) {}
  }

  // ---- counting ----

  /** The sum of the lengths of all lists, in any order. */
  ghost function TotalLen<X(!new)>(d: map<X, seq<Job>>): nat {
    if d == map[] then 0
    else
      var k :| k in d;
      |d[k]| + TotalLen(d - {k})
  }

  lemma {:induction false} TotalLenPick<X(!new)>(d: map<X, seq<Job>>, k: X)
    requires k in d
    ensures TotalLen(d) == |d[k]| + TotalLen(d - {k})
    decreases |d|
  {
    var p :| p in d && TotalLen(d) == |d[p]| + TotalLen(d - {p});
    if p != k {
      TotalLenPick(d - {p}, k);
      TotalLenPick(d - {k}, p);
      assert d - {p} - {k} == d - {k} - {p};
    }
  }

  lemma TotalLenUpdate<X(!new)>(d: map<X, seq<Job>>, k: X, l: seq<Job>)
    requires k in d
    ensures TotalLen(d[k := l]) == TotalLen(d) - |d[k]| + |l|
  {
    TotalLenPick(d, k);
    TotalLenPick(d[k := l], k);
    assert d[k := l] - {k} == d - {k};
  }

  lemma {:induction false} TotalLenZero<X(!new)>(d: map<X, seq<Job>>)
    ensures TotalLen(d) == 0 <==> forall k :: k in d ==> d[k] == []
    decreases |d|
  {
    if k :| k in d {
      TotalLenPick(d, k);
      TotalLenZero(d - {k});
      assert forall i :: i in d ==> i == k || (i in d - {k} && (d - {k})[i] == d[i]);
      assert forall i :: i in d - {k} ==> i in d;
    } else {
      assert d == map[];
    }
  }

  /** Lists that hold disjoint sets of jobs, one for each key, hold their union. */
  lemma {:induction false} TotalByTarget(d: Lists, js: set<Job>)
    requires forall t :: t in d ==> Holds(d[t], set j | j in js && j.target == t)
    requires forall j :: j in js ==> j.target in d
    ensures TotalLen(d) == |js|
    decreases |d|
  {
    if t :| t in d {
      TotalLenPick(d, t);
      var own := set j | j in js && j.target == t;
      HoldsCount(d[t], own);
      forall u | u in d - {t} ensures (set j | j in js - own && j.target == u) == set j | j in js && j.target == u {}
      TotalByTarget(d - {t}, js - own);
    } else {
      assert js == {};
    }
  }

  lemma {:induction false} TotalByCfg(m: map<Cfg, seq<Job>>, js: set<Job>)
    requires HoldsByCfg(m, js)
    ensures TotalLen(m) == |js|
    decreases |m|
  {
    if c :| c in m {
      TotalLenPick(m, c);
      var own := set j | j in js && j.cfg == c;
      assert Holds(m[c], own) by { OwnCfg(m, js, c); }
      HoldsByCfgMinus(m, js, c);
      hide HoldsByCfg, Holds;
      HoldsCount(m[c], own);
      TotalByCfg(m - {c}, js - own);
    } else {
      assert js == {};
    }
  }

  lemma OwnCfg(m: map<Cfg, seq<Job>>, js: set<Job>, c: Cfg)
    requires HoldsByCfg(m, js) && c in m
    ensures Holds(m[c], set j | j in js && j.cfg == c)
  {
  }

  lemma HoldsByCfgMinus(m: map<Cfg, seq<Job>>, js: set<Job>, c: Cfg)
    requires HoldsByCfg(m, js) && c in m
    ensures HoldsByCfg(m - {c}, js - set j | j in js && j.cfg == c)
  {
  }

  /** Two statuses are two places, so adding up sizes counts each job once. */
  ghost function Among(items: seq<Job>, s: Statuses, t: Target, sts: set<Status>): set<Job> {
    set j | j in items && j.target == t && j in s && s[j] in sts
  }

  lemma AmongOneMore(items: seq<Job>, s: Statuses, t: Target, sts: set<Status>, st: Status)
    requires st !in sts
    ensures |Among(items, s, t, sts + {st})| == |Among(items, s, t, sts)| + |At(items, s, t, st)|
  {
    assert Among(items, s, t, sts + {st}) == Among(items, s, t, sts) + At(items, s, t, st);
    assert Among(items, s, t, sts) !! At(items, s, t, st);
  }

  lemma CountFinal(items: seq<Job>, s: Statuses, t: Target)
    ensures |Among(items, s, t, {P, F, K})| == |At(items, s, t, P)| + |At(items, s, t, F)| + |At(items, s, t, K)|
  {
    assert Among(items, s, t, {}) == {};
    AmongOneMore(items, s, t, {}, P);
    AmongOneMore(items, s, t, {P}, F);
    AmongOneMore(items, s, t, {P, F}, K);
    assert {} + {P} == {P} && {P} + {F} == {P, F} && {P, F} + {K} == {P, F, K};
  }

  lemma CountStarted(items: seq<Job>, s: Statuses, t: Target)
    ensures |Among(items, s, t, {P, F, K} + {Q} + {D})| == |At(items, s, t, Q)| + |At(items, s, t, D)|
              + |At(items, s, t, P)| + |At(items, s, t, F)| + |At(items, s, t, K)|
  {
    hide Among, At;
    CountFinal(items, s, t);
    AmongOneMore(items, s, t, {P, F, K}, Q);
    AmongOneMore(items, s, t, {P, F, K} + {Q}, D);
  }

  /** The jobs of a target, by status. */
  lemma CountByStatus(items: seq<Job>, s: Statuses, t: Target)
    ensures |OfTarget(items, t)| == |Unstarted(items, s, t)| + |At(items, s, t, Q)| + |At(items, s, t, D)|
                                  + |At(items, s, t, P)| + |At(items, s, t, F)| + |At(items, s, t, K)|
  {
    hide At;
    CountStarted(items, s, t);
    var all := {P, F, K} + {Q} + {D};
    var u, a := Unstarted(items, s, t), Among(items, s, t, all);
    forall j | j in s ensures s[j] in all { match s[j] { case Q => case D => case P => case F => case K => } }
    assert OfTarget(items, t) == u + a && u !! a;
  }

  /** A target is finished when its final jobs are as many as its jobs. */
  lemma FinalByCount(items: seq<Job>, s: Statuses, t: Target)
    ensures |At(items, s, t, P)| + |At(items, s, t, F)| + |At(items, s, t, K)| == |OfTarget(items, t)|
      <==> forall j :: j in items && j.target == t ==> Terminal(s, j)
  {
    CountFinal(items, s, t);
    var a, o := Among(items, s, t, {P, F, K}), OfTarget(items, t);
    assert a <= o;
    assert |o - a| == |o| - |a|;
    assert a == o <==> forall j :: j in o ==> Terminal(s, j);
    assert forall j :: j in o <==> j in items && j.target == t;
  }
}
