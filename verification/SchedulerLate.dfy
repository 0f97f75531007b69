/** Which queues a dispatch pass fills, and so when it gives out more slots than there are. */
module SchedulerLate {
  import opened Wrappers
  import opened SchedulerProtocol
  import opened SchedulerBoxes
  import opened SchedulerPlaces
  import opened SchedulerQuotas
  import opened SchedulerPass
  import opened SchedulerModel

  // ---- the settled states a pass goes through ----

  ghost predicate Settled(items: seq<Job>, s: Statuses) {
    && Ready(items, s) == {}
    && forall j :: j in s ==> j in items && DepsDone(items, s, j)
  }

  ghost predicate QueueOf(items: seq<Job>, s: Statuses, t: Target, list: seq<Job>) {
    Distinct(list) && forall j :: j in list ==> j in items && j.target == t && j in s && s[j] == Q
  }

  ghost predicate Queues(items: seq<Job>, p: Pool) {
    forall t :: t in p.queued ==> QueueOf(items, p.status, t, p.queued[t])
  }

  /** Dependents are in the next target. */
  ghost predicate Layered(items: seq<Job>) {
    forall j, d :: j in items && d in items && d in j.deps ==> Follows(TargetsOf(items), d.target, j.target)
  }

  // ---- the jobs a target's quota reaches ----

  /** The jobs that its quota takes off a queue and that may not run. */
  function Reached(items: seq<Job>, s: Statuses, list: seq<Job>, quota: nat): set<Job> {
    if list == [] || quota == 0 then {}
    else if MayRun(items, s, list[0]) then Reached(items, s, list[1..], quota - 1)
    else {list[0]} + Reached(items, s, list[1..], quota)
  }

  /** The waiting jobs that nothing holds back any more once the jobs of c are cancelled. */
  ghost function Freed(items: seq<Job>, s: Statuses, c: set<Job>): set<Job> {
    set j | j in items && j !in s && forall d :: d in j.deps && d in items ==> Terminal(s, d) || d in c
  }

  /** Statuses after cancelling the jobs of c. */
  ghost predicate CancelsTo(items: seq<Job>, s: Statuses, c: set<Job>, t: Statuses) {
    && (forall j :: j in t <==> j in s || j in Freed(items, s, c))
    && (forall j :: j in t ==> t[j] == if j in c then K else if j in s then s[j] else Q)
  }

  /** What a queue gains. */
  ghost predicate Gains(was: seq<Job>, now: seq<Job>, more: set<Job>) {
    was <= now && Distinct(now[|was|..]) && forall j :: j in now[|was|..] <==> j in more
  }

  function Within(l: seq<Job>, u: Target): seq<Job> {
    if l == [] then []
    else
      var n := |l| - 1;
      Within(l[..n], u) + if l[n].target == u then [l[n]] else []
  }

  lemma {:induction false} WithinMembers(l: seq<Job>, u: Target)
    ensures forall j :: j in Within(l, u) <==> j in l && j.target == u
  {
    if l != [] {
      WithinMembers(l[..|l| - 1], u);
      assert l == l[..|l| - 1] + [l[|l| - 1]];
    }
  }

  lemma {:induction false} WithinDistinct(l: seq<Job>, u: Target)
    requires Distinct(l)
    ensures Distinct(Within(l, u))
  {
    if l != [] {
      var n := |l| - 1;
      WithinDistinct(l[..n], u);
      WithinMembers(l[..n], u);
      assert l[n] !in l[..n];
    }
  }

  lemma {:induction false} QueueAllQueues(p: Pool, l: seq<Job>)
    ensures QueueAll(p, l).queued.Keys == p.queued.Keys
    ensures forall u :: u in p.queued ==> QueueAll(p, l).queued[u] == p.queued[u] + Within(l, u)
  {
    if l != [] {
      QueueAllQueues(p, l[..|l| - 1]);
    }
  }

  lemma FreedByOne(items: seq<Job>, s: Statuses, x: Job)
    requires Ready(items, s) == {} && !Terminal(s, x)
    ensures forall j :: j in Freed(items, s, {x}) <==>
              j in items && j !in s && x in j.deps && DepsDone(items, s[x := K], j)
  {
    forall j | j in items && j !in s
      ensures j in Freed(items, s, {x}) <==> x in j.deps && DepsDone(items, s[x := K], j)
    {
      assert DepsDone(items, s, j) ==> j in Ready(items, s);
      assert j in Freed(items, s, {x}) && x !in j.deps ==> DepsDone(items, s, j);
      if DepsDone(items, s[x := K], j) {
        forall d | d in j.deps && d in items ensures Terminal(s, d) || d == x {
          assert Terminal(s[x := K], d);
        }
      }
    }
  }

  /** Cancelling one job: the waiting jobs it frees are queued. */
  lemma CancelStep(items: seq<Job>, p: Pool, x: Job)
    requires Settled(items, p.status) && x in items && x in p.status && p.status[x] == Q
    ensures var q := CancelTaken(items, p, x);
            && CancelsTo(items, p.status, {x}, q.status) && q.queued.Keys == p.queued.Keys
            && forall u :: u in p.queued ==>
                 Gains(p.queued[u], q.queued[u], set j | j in Freed(items, p.status, {x}) && j.target == u)
  {
    hide DepsDone, Freed, QueueAll, Successors, Gains;
    var s := p.status[x := K];
    var l := Successors(items, items, s, x);
    FreedList(items, p.status, x);
    QueueAllStatus(Pool(s, p.queued), l);
    QueueAllQueues(Pool(s, p.queued), l);
    forall u | u in p.queued
      ensures Gains(p.queued[u], p.queued[u] + Within(l, u), set j | j in Freed(items, p.status, {x}) && j.target == u)
    {
      GainsWithin(p.queued[u], l, u, Freed(items, p.status, {x}));
    }
  }

  lemma FreedList(items: seq<Job>, s: Statuses, x: Job)
    requires Settled(items, s) && x in s && s[x] == Q
    ensures var l := Successors(items, items, s[x := K], x);
            Distinct(l) && forall j :: j in l <==> j in Freed(items, s, {x})
    ensures forall j :: j in Freed(items, s, {x}) ==> j !in s
  {
    hide DepsDone;
    FreedByOne(items, s, x);
    SuccessorsDistinct(items, items, s[x := K], x);
    SuccessorsMembers(items, items, s[x := K], x);
  }

  lemma GainsWithin(was: seq<Job>, l: seq<Job>, u: Target, js: set<Job>)
    requires Distinct(l) && forall j :: j in l <==> j in js
    ensures Gains(was, was + Within(l, u), set j | j in js && j.target == u)
  {
    WithinMembers(l, u);
    WithinDistinct(l, u);
    assert (was + Within(l, u))[|was|..] == Within(l, u);
  }

  lemma SettledAfter(items: seq<Job>, s: Statuses, c: set<Job>, t: Statuses)
    requires Settled(items, s) && CancelsTo(items, s, c, t)
    requires forall j :: j in c ==> j in s && s[j] == Q
    ensures Settled(items, t) && Continues(s, t)
  {
    forall j | j in items && DepsDone(items, t, j) && j !in s ensures j in t {
      forall d | d in j.deps && d in items ensures Terminal(s, d) || d in c { assert Terminal(t, d); }
      assert j in Freed(items, s, c);
    }
    forall j | j in t ensures j in items && DepsDone(items, t, j) {
      assert j in s ==> DepsDone(items, s, j);
      forall d | d in j.deps && d in items ensures Terminal(t, d) {
        assert Terminal(s, d) || d in c;
      }
    }
  }

  /** Cancelling some jobs and then others. */
  lemma CancelsOn(items: seq<Job>, s: Statuses, a: set<Job>, m: Statuses, b: set<Job>, t: Statuses)
    requires CancelsTo(items, s, a, m) && CancelsTo(items, m, b, t)
    requires forall j :: j in a ==> j in s && s[j] == Q
    requires forall j :: j in b ==> j in s && s[j] == Q && j !in a
    ensures CancelsTo(items, s, a + b, t)
    ensures Freed(items, s, a + b) == Freed(items, s, a) + Freed(items, m, b)
  {
    FreedOn(items, s, a, m, b);
    FreedWait(items, s, a);
    FreedWait(items, m, b);
    hide Freed;
  }

  lemma FreedWait(items: seq<Job>, s: Statuses, c: set<Job>)
    ensures forall j :: j in Freed(items, s, c) ==> j in items && j !in s
  {
  }

  lemma FreedOn(items: seq<Job>, s: Statuses, a: set<Job>, m: Statuses, b: set<Job>)
    requires CancelsTo(items, s, a, m)
    requires forall j :: j in a ==> j in s && s[j] == Q
    requires forall j :: j in b ==> j in s && s[j] == Q && j !in a
    ensures Freed(items, s, a + b) == Freed(items, s, a) + Freed(items, m, b)
  {
    TerminalAfter(items, s, a, m);
    hide CancelsTo, Terminal;
    forall j | j in items && j !in s
      ensures j in Freed(items, s, a + b) <==> j in Freed(items, s, a) || j in Freed(items, m, b)
    {
      if j in Freed(items, s, a + b) && j !in Freed(items, s, a) {
        assert j !in m;
        assert j in Freed(items, m, b);
      }
    }
  }

  lemma TerminalAfter(items: seq<Job>, s: Statuses, a: set<Job>, m: Statuses)
    requires CancelsTo(items, s, a, m)
    requires forall j :: j in a ==> j in s && s[j] == Q
    ensures forall d :: Terminal(m, d) <==> Terminal(s, d) || d in a
    ensures forall j :: j in m <==> j in s || j in Freed(items, s, a)
  {
    FreedWait(items, s, a);
    hide Freed;
  }

  lemma GainsOn(a: seq<Job>, b: seq<Job>, c: seq<Job>, x: set<Job>, y: set<Job>)
    requires Gains(a, b, x) && Gains(b, c, y) && x !! y
    ensures Gains(a, c, x + y)
  {
    assert c[|a|..] == b[|a|..] + c[|b|..];
    DistinctConcat(b[|a|..], c[|b|..]);
  }

  // ---- one target ----

  lemma {:induction false} ReachedAgree(items: seq<Job>, s: Statuses, t: Statuses, list: seq<Job>, quota: nat)
    requires forall j :: j in list ==> MayRun(items, s, j) == MayRun(items, t, j)
    ensures Reached(items, s, list, quota) == Reached(items, t, list, quota)
  {
    if list != [] && quota > 0 {
      hide MayRun;
      ReachedAgree(items, s, t, list[1..], quota - 1);
      ReachedAgree(items, s, t, list[1..], quota);
    }
  }

  lemma {:induction false} ReachedInList(items: seq<Job>, s: Statuses, list: seq<Job>, quota: nat)
    ensures forall j :: j in Reached(items, s, list, quota) ==> j in list
  {
    if list != [] && quota > 0 {
      hide MayRun;
      ReachedInList(items, s, list[1..], quota - 1);
      ReachedInList(items, s, list[1..], quota);
    }
  }

  /** A state in which target t has its turn, its queue being the list. */
  ghost predicate Ahead(items: seq<Job>, p: Pool, t: Target, list: seq<Job>) {
    && Layered(items) && Settled(items, p.status) && Queues(items, p)
    && t in p.queued && p.queued[t] == list
  }

  /** What taking jobs from the queue of t has done. */
  ghost predicate Taken(items: seq<Job>, p: Pool, t: Target, list: seq<Job>, c: set<Job>, q: Pool, batch: seq<Job>) {
    && Settled(items, q.status) && CancelsTo(items, p.status, c, q.status)
    && Queues(items, q) && QueueOf(items, q.status, t, batch)
    && q.queued.Keys == p.queued.Keys && t in q.queued
    && (forall j :: j in batch ==> j in list && j !in q.queued[t])
    && (forall j :: j in q.queued[t] ==> j in list)
    && (forall u :: u in p.queued && u != t ==>
          Gains(p.queued[u], q.queued[u], set j | j in Freed(items, p.status, c) && j.target == u))
  }

  lemma NothingTaken(items: seq<Job>, p: Pool, t: Target, list: seq<Job>)
    requires Ahead(items, p, t, list)
    ensures Taken(items, p, t, list, {}, p, [])
  {
    forall j ensures j !in Freed(items, p.status, {}) {
      assert j in Freed(items, p.status, {}) ==> j in Ready(items, p.status);
    }
  }

  lemma PoppedAhead(items: seq<Job>, p: Pool, t: Target, list: seq<Job>)
    requires Ahead(items, p, t, list) && list != []
    ensures Ahead(items, Pool(p.status, p.queued[t := list[1..]]), t, list[1..])
  {
    hide Settled, Layered;
  }

  lemma TakenMore(items: seq<Job>, p: Pool, t: Target, list: seq<Job>, c: set<Job>, q: Pool, batch: seq<Job>)
    requires Ahead(items, p, t, list) && list != []
    requires Taken(items, Pool(p.status, p.queued[t := list[1..]]), t, list[1..], c, q, batch)
    requires forall j :: j in c ==> j in list[1..]
    ensures Taken(items, p, t, list, c, q, [list[0]] + batch)
  {
    hide Settled, Freed, Layered;
    assert list[0] in list && list[0] !in list[1..];
    forall j | j in list[1..] ensures j in list {}
  }

  lemma NoGain(was: seq<Job>, now: seq<Job>)
    requires Gains(was, now, {})
    ensures now == was
  {
    var more := now[|was|..];
    FirstMember(more);
    assert now == was + more;
  }

  lemma FreedElsewhere(items: seq<Job>, s: Statuses, x: Job)
    requires Layered(items) && Ready(items, s) == {} && x in items && !Terminal(s, x)
    ensures forall j :: j in Freed(items, s, {x}) ==> j.target != x.target
  {
    FreedByOne(items, s, x);
  }

  /** A queue stays in order when jobs that were waiting join it and a job elsewhere is cancelled. */
  lemma QueueGrows(items: seq<Job>, s: Statuses, x: Job, t: Statuses, u: Target, was: seq<Job>, now: seq<Job>)
    requires CancelsTo(items, s, {x}, t) && QueueOf(items, s, u, was) && x !in was && x in s
    requires Gains(was, now, set j | j in Freed(items, s, {x}) && j.target == u)
    ensures QueueOf(items, t, u, now)
  {
    assert now == was + now[|was|..];
    DistinctConcat(was, now[|was|..]);
  }

  /** A job of the queue that may not run has been cancelled: its successors are in other queues. */
  lemma CancelAhead(items: seq<Job>, p: Pool, t: Target, list: seq<Job>)
    requires Ahead(items, p, t, list) && list != []
    ensures var popped := Pool(p.status, p.queued[t := list[1..]]);
            var q := CancelTaken(items, popped, list[0]);
            && Ahead(items, q, t, list[1..]) && Continues(p.status, q.status)
            && CancelsTo(items, p.status, {list[0]}, q.status) && q.queued.Keys == p.queued.Keys
            && forall u :: u in p.queued && u != t ==>
                 Gains(p.queued[u], q.queued[u], set j | j in Freed(items, p.status, {list[0]}) && j.target == u)
  {
    hide Settled, Layered, CancelsTo, Freed, CancelTaken, QueueOf, Gains;
    var x, popped := list[0], Pool(p.status, p.queued[t := list[1..]]);
    assert QueueOf(items, p.status, t, list);
    FirstMember(list);
    HeadOf(items, p.status, t, list);
    PoppedAhead(items, p, t, list);
    CancelStep(items, popped, x);
    var q := CancelTaken(items, popped, x);
    SettledAfter(items, p.status, {x}, q.status);
    FreedElsewhere(items, p.status, x) by { SettledNone(items, p.status); }
    forall u | u in q.queued ensures QueueOf(items, q.status, u, q.queued[u]) {
      assert QueueOf(items, p.status, u, popped.queued[u]);
      InOneQueue(items, p.status, x, t, u, popped.queued[u], list);
      QueueGrows(items, p.status, x, q.status, u, popped.queued[u], q.queued[u]);
    }
    assert (set j | j in Freed(items, p.status, {x}) && j.target == t) == {};
    NoGain(list[1..], q.queued[t]);
  }

  lemma SettledNone(items: seq<Job>, s: Statuses)
    requires Settled(items, s)
    ensures Ready(items, s) == {}
  {
  }

  lemma HeadOf(items: seq<Job>, s: Statuses, t: Target, list: seq<Job>)
    requires QueueOf(items, s, t, list) && list != []
    ensures list[0] in items && list[0].target == t && list[0] in s && s[list[0]] == Q && list[0] !in list[1..]
  {
    assert list[0] in list;
  }

  lemma InOneQueue(items: seq<Job>, s: Statuses, x: Job, t: Target, u: Target, queue: seq<Job>, list: seq<Job>)
    requires x.target == t && QueueOf(items, s, u, queue)
    requires list != [] && (u == t ==> queue == list[1..]) && x !in list[1..]
    ensures x !in queue
  {
  }

  lemma TakenAfter(items: seq<Job>, p: Pool, t: Target, list: seq<Job>, m: Pool, c: set<Job>, q: Pool, batch: seq<Job>)
    requires Ahead(items, p, t, list) && list != [] && Ahead(items, m, t, list[1..])
    requires CancelsTo(items, p.status, {list[0]}, m.status) && m.queued.Keys == p.queued.Keys
    requires forall u :: u in p.queued && u != t ==>
               Gains(p.queued[u], m.queued[u], set j | j in Freed(items, p.status, {list[0]}) && j.target == u)
    requires Taken(items, m, t, list[1..], c, q, batch) && forall j :: j in c ==> j in list[1..]
    ensures Taken(items, p, t, list, {list[0]} + c, q, batch)
  {
    hide Settled, Freed, Layered, CancelsTo, Gains, QueueOf;
    var x := list[0];
    assert QueueOf(items, p.status, t, list);
    HeadOf(items, p.status, t, list);
    TailIn(list);
    assert forall j :: j in c ==> j in p.status && p.status[j] == Q && j !in {x} by {
      QueueMembers(items, p.status, t, list);
    }
    CancelsOn(items, p.status, {x}, m.status, c, q.status);
    forall u | u in p.queued && u != t
      ensures Gains(p.queued[u], q.queued[u], set j | j in Freed(items, p.status, {x} + c) && j.target == u)
    {
      var a := set j | j in Freed(items, p.status, {x}) && j.target == u;
      var b := set j | j in Freed(items, m.status, c) && j.target == u;
      FreedApart(items, p.status, x, m.status, c);
      GainsOn(p.queued[u], m.queued[u], q.queued[u], a, b);
      assert a + b == set j | j in Freed(items, p.status, {x} + c) && j.target == u;
    }
  }

  lemma TailIn(list: seq<Job>)
    requires list != []
    ensures list[0] in list && forall j :: j in list[1..] ==> j in list
  {
  }

  lemma QueueMembers(items: seq<Job>, s: Statuses, t: Target, list: seq<Job>)
    requires QueueOf(items, s, t, list)
    ensures forall j :: j in list ==> j in items && j.target == t && j in s && s[j] == Q
  {
  }

  lemma FreedApart(items: seq<Job>, s: Statuses, x: Job, m: Statuses, c: set<Job>)
    requires CancelsTo(items, s, {x}, m)
    ensures Freed(items, s, {x}) !! Freed(items, m, c)
  {
  }

  /** The turn of a target, up to launching: exactly the jobs its quota reaches that may not run are cancelled, and
      every other queue gains exactly the jobs that frees. */
  lemma {:induction false} TakeEffect(items: seq<Job>, p: Pool, t: Target, list: seq<Job>, quota: nat)
    requires Ahead(items, p, t, list)
    ensures var (q, batch) := Take(items, p, t, list, quota);
            Taken(items, p, t, list, Reached(items, p.status, list, quota), q, batch)
    decreases |list|
  {
    hide Ahead, Taken, MayRun, CancelTaken, CancelsTo, Gains, Freed;
    if list == [] || quota == 0 {
      NothingTaken(items, p, t, list);
    } else {
      var x, popped := list[0], Pool(p.status, p.queued[t := list[1..]]);
      if MayRun(items, p.status, x) {
        PoppedAhead(items, p, t, list);
        TakeEffect(items, popped, t, list[1..], quota - 1);
        ReachedInList(items, p.status, list[1..], quota - 1);
        var (q, batch) := Take(items, popped, t, list[1..], quota - 1);
        TakenMore(items, p, t, list, Reached(items, p.status, list[1..], quota - 1), q, batch);
      } else {
        CancelAhead(items, p, t, list);
        var m := CancelTaken(items, popped, x);
        TakeEffect(items, m, t, list[1..], quota);
        StillMayRun(items, p, t, list, m.status);
        ReachedAgree(items, p.status, m.status, list[1..], quota);
        ReachedInList(items, p.status, list[1..], quota);
        var (q, batch) := Take(items, m, t, list[1..], quota);
        TakenAfter(items, p, t, list, m, Reached(items, p.status, list[1..], quota), q, batch);
      }
    }
  }

  lemma StillMayRun(items: seq<Job>, p: Pool, t: Target, list: seq<Job>, s: Statuses)
    requires Ahead(items, p, t, list) && Continues(p.status, s) && list != []
    ensures forall j :: j in list[1..] ==> MayRun(items, p.status, j) == MayRun(items, s, j)
  {
    hide MayRun, DepsDone;
    forall j | j in list[1..] ensures MayRun(items, p.status, j) == MayRun(items, s, j) {
      assert j in list;
      MayRunSettled(items, p.status, s, j);
    }
  }

  // ---- launching ----

  /** Launching touches only the jobs launched and waiting jobs, and nothing becomes queued. */
  ghost predicate LaunchedTo(items: seq<Job>, s: Statuses, jobs: seq<Job>, t: Statuses) {
    && Settled(items, t)
    && (forall j :: j in s ==> j in t && (j in jobs || t[j] == s[j]))
    && (forall j :: j in t && j !in s ==> t[j] == K)
  }

  lemma LaunchStep(items: seq<Job>, s: Statuses, x: Job, st: Status, t: Statuses)
    requires Settled(items, s) && x in s && s[x] == Q
    requires if st == D then t == s[x := D] else st == K && Cascade(items, s[x := K], t)
    ensures Settled(items, t) && Continues(s, t) && x in t
    ensures forall j :: j in s && j != x ==> j in t && t[j] == s[j]
    ensures forall j :: j in t && j !in s ==> t[j] == K
  {
    if st == D { ReadyAfterActive(items, s, x, D); }
    assert Continues(s, t);
    forall j | j in t ensures j in items && DepsDone(items, t, j) {
      if j in s {
        MayRunSettled(items, s, t, j);
      }
    }
  }

  lemma LaunchedMore(items: seq<Job>, s: Statuses, front: seq<Job>, m: Statuses, x: Job, st: Status, t: Statuses)
    requires LaunchedTo(items, s, front, m) && x in s && s[x] == Q && x !in front
    requires if st == D then t == m[x := D] else st == K && Cascade(items, m[x := K], t)
    ensures LaunchedTo(items, s, front + [x], t)
  {
    hide Settled, Cascade;
    LaunchStep(items, m, x, st, t);
    forall j | j in s ensures j in t && (j in front + [x] || t[j] == s[j]) { assert j in m; }
  }

  lemma {:induction false} LaunchEffect(items: seq<Job>, s: Statuses, jobs: seq<Job>, starts: Job -> bool)
    requires Settled(items, s) && Distinct(jobs) && forall j :: j in jobs ==> j in s && s[j] == Q
    ensures LaunchedTo(items, s, jobs, LaunchInTurn(items, s, jobs, starts))
  {
    hide Settled, CascadeOf, Cascade;
    if jobs != [] {
      hide LaunchedTo;
      var n := |jobs| - 1;
      var front, x := jobs[..n], jobs[n];
      assert jobs == front + [x] && x !in front;
      LaunchEffect(items, s, front, starts);
      var m := LaunchInTurn(items, s, front, starts);
      CascadeOfSpec(items, m[x := K]);
      LaunchedMore(items, s, front, m, x, if starts(x) then D else K, LaunchInTurn(items, s, jobs, starts));
    }
  }

  /** A whole turn, launching included. */
  ghost predicate Turned(items: seq<Job>, p: Pool, t: Target, c: set<Job>, q: Pool) {
    && Settled(items, q.status) && Queues(items, q) && q.queued.Keys == p.queued.Keys
    && forall u :: u in p.queued && u != t ==>
         Gains(p.queued[u], q.queued[u], set j | j in Freed(items, p.status, c) && j.target == u)
  }

  lemma TurnEffect(items: seq<Job>, starts: Job -> bool, p: Pool, t: Target, quota: nat)
    requires t in p.queued && Ahead(items, p, t, p.queued[t])
    ensures Turned(items, p, t, Reached(items, p.status, p.queued[t], quota), TargetTurn(items, starts, p, t, quota).0)
  {
    hide Reached, CancelsTo, Gains, Freed, Take, LaunchInTurn;
    var list := p.queued[t];
    TakeEffect(items, p, t, list, quota);
    var (q, batch) := Take(items, p, t, list, quota);
    LaunchEffect(items, q.status, batch, starts);
    var s := LaunchInTurn(items, q.status, batch, starts);
    forall u | u in q.queued ensures QueueOf(items, s, u, q.queued[u]) {
      if u != t {
        assert forall j :: j in batch ==> j.target == t;
      }
    }
  }

  /** What cancelling jobs of one target frees is in the next. */
  lemma FreedNext(items: seq<Job>, s: Statuses, t: Target, c: set<Job>, j: Job)
    requires Layered(items) && Ready(items, s) == {} && j in Freed(items, s, c)
    requires forall x :: x in c ==> x in items && x.target == t
    ensures Follows(TargetsOf(items), t, j.target)
  {
    assert j !in Ready(items, s);
    var d :| d in j.deps && d in items && !Terminal(s, d);
    assert d in c;
  }

  // ---- the pass ----

  /** The turn of t, at the state in which it is reached, takes jobs off the queue that may not run, and cancelling
      them leaves some waiting job of the next target, whose queue was empty, without outstanding dependencies. */
  ghost predicate FillsEmpty(items: seq<Job>, ts: seq<Target>, p: Pool, t: Target, quota: nat, was: Lists)
    requires t in p.queued
  {
    exists j :: j in Freed(items, p.status, Reached(items, p.status, p.queued[t], quota))
             && Follows(ts, t, j.target) && j.target in was && was[j.target] == []
  }

  /** From target i on, some turn of the pass fills a queue that was empty. */
  ghost predicate FillsFrom(items: seq<Job>, starts: Job -> bool, ts: seq<Target>, slots: nat, total: nat, i: nat,
                            plan: seq<Share>, p: Pool, was: Lists)
    requires total > 0
    decreases |ts| - i
  {
    i < |ts| &&
    if ts[i] !in p.queued || p.queued[ts[i]] == [] then
      FillsFrom(items, starts, ts, slots, total, i + 1, plan, p, was)
    else
      var w := p.queued[ts[i]][0].weight;
      var quota := Grant(slots, total, Weights(plan), w);
      var (q, jobs) := TargetTurn(items, starts, p, ts[i], quota);
      || FillsEmpty(items, ts, p, ts[i], quota, was)
      || FillsFrom(items, starts, ts, slots, total, i + 1, plan + [Share(ts[i], w, jobs)], q, was)
  }

  /** The state before the turn of target i: later queues are as they were, but for the next one's gain. */
  ghost predicate Underway(items: seq<Job>, ts: seq<Target>, i: nat, p: Pool, was: Lists) {
    && ts == TargetsOf(items) && Distinct(ts) && Layered(items) && Settled(items, p.status) && Queues(items, p)
    && (forall k :: 0 <= k < |ts| ==> ts[k] in p.queued && ts[k] in was)
    && (forall k :: i < k < |ts| ==> p.queued[ts[k]] == was[ts[k]])
    && (i < |ts| ==> was[ts[i]] <= p.queued[ts[i]])
  }

  lemma FollowsIndex(ts: seq<Target>, i: nat, u: Target)
    requires Distinct(ts) && i < |ts|
    ensures Follows(ts, ts[i], u) <==> i + 1 < |ts| && u == ts[i + 1]
  {
    IndexOfDistinct(ts, i);
    if i + 1 < |ts| { IndexOfDistinct(ts, i + 1); }
  }

  /** Only the next queue gains jobs in a turn, and an empty one is filled exactly when jobs of its target are freed. */
  lemma UnderwayStep(items: seq<Job>, starts: Job -> bool, ts: seq<Target>, i: nat, p: Pool, was: Lists, quota: nat)
    requires Underway(items, ts, i, p, was) && i < |ts|
    ensures var q := TargetTurn(items, starts, p, ts[i], quota).0;
            && Underway(items, ts, i + 1, q, was)
            && (FillsEmpty(items, ts, p, ts[i], quota, was) <==>
                  i + 1 < |ts| && was[ts[i + 1]] == [] && q.queued[ts[i + 1]] != [])
  {
    hide TargetTurn, Reached, Freed, Follows, Layered, Settled, Queues, Gains;
    var t, q := ts[i], TargetTurn(items, starts, p, ts[i], quota).0;
    var c := Reached(items, p.status, p.queued[t], quota);
    TurnEffect(items, starts, p, t, quota);
    forall k | i < k < |ts|
      ensures ts[k] in q.queued && was[ts[k]] <= q.queued[ts[k]]
      ensures k > i + 1 ==> q.queued[ts[k]] == was[ts[k]]
    {
      assert ts[k] != t;
      var more := set j | j in Freed(items, p.status, c) && j.target == ts[k];
      GainsMeans(was[ts[k]], q.queued[ts[k]], more);
      if k > i + 1 {
        forall j | j in more ensures false { FreedFollows(items, p, ts, i, quota, j); }
        assert more == {};
      }
    }
    forall j | j in Freed(items, p.status, c)
      ensures i + 1 < |ts| && j.target == ts[i + 1] && Follows(ts, t, j.target)
    {
      FreedFollows(items, p, ts, i, quota, j);
    }
    if i + 1 < |ts| {
      var more := set j | j in Freed(items, p.status, c) && j.target == ts[i + 1];
      assert ts[i + 1] != t;
      GainsMeans(was[ts[i + 1]], q.queued[ts[i + 1]], more);
      if j :| j in Freed(items, p.status, c) { assert j in more; }
      if j :| j in more { assert j in Freed(items, p.status, c); }
    }
  }

  lemma GainsMeans(was: seq<Job>, now: seq<Job>, more: set<Job>)
    ensures Gains(was, now, more) ==> was <= now && (was == now <==> more == {})
    ensures Gains(was, now, more) && was == [] ==> (now != [] <==> exists j :: j in more)
  {
    if Gains(was, now, more) {
      FirstMember(now[|was|..]);
      assert now == was + now[|was|..];
    }
  }

  lemma FreedFollows(items: seq<Job>, p: Pool, ts: seq<Target>, i: nat, quota: nat, j: Job)
    requires ts == TargetsOf(items) && Distinct(ts) && i < |ts| && ts[i] in p.queued
    requires Layered(items) && Settled(items, p.status) && Queues(items, p)
    requires j in Freed(items, p.status, Reached(items, p.status, p.queued[ts[i]], quota))
    ensures i + 1 < |ts| && j.target == ts[i + 1] && Follows(ts, ts[i], j.target)
  {
    hide Reached, Freed;
    var c := Reached(items, p.status, p.queued[ts[i]], quota);
    ReachedInList(items, p.status, p.queued[ts[i]], quota);
    FreedNext(items, p.status, ts[i], c, j);
    FollowsIndex(ts, i, j.target);
  }

  /** The plan has a share of a queue that was empty exactly when some turn of the pass fills one. */
  lemma {:induction false} LateFrom(
    items: seq<Job>, starts: Job -> bool, ts: seq<Target>, slots: nat, total: nat, i: nat,
    plan: seq<Share>, p: Pool, was: Lists)
    requires total > 0 && Underway(items, ts, i, p, was)
    ensures LateShare(Pass(items, starts, ts, slots, total, i, plan, p).1, was) <==>
              || LateShare(plan, was) || FillsFrom(items, starts, ts, slots, total, i, plan, p, was)
              || (i < |ts| && was[ts[i]] == [] && p.queued[ts[i]] != [])
    decreases |ts| - i
  {
    if i < |ts| {
      hide Layered, Settled, Queues, TargetTurn, FillsEmpty, Grant, LateShare;
      if p.queued[ts[i]] == [] {
        LateFrom(items, starts, ts, slots, total, i + 1, plan, p, was);
      } else {
        var w := p.queued[ts[i]][0].weight;
        var quota := Grant(slots, total, Weights(plan), w);
        var (q, jobs) := TargetTurn(items, starts, p, ts[i], quota);
        UnderwayStep(items, starts, ts, i, p, was, quota);
        LateMore(plan, Share(ts[i], w, jobs), was);
        LateFrom(items, starts, ts, slots, total, i + 1, plan + [Share(ts[i], w, jobs)], q, was);
      }
    }
  }

  /** Over a whole pass, in terms of the state in which it starts. */
  lemma LateExactly(items: seq<Job>, starts: Job -> bool, ts: seq<Target>, slots: nat, total: nat, p: Pool)
    requires total > 0 && Underway(items, ts, 0, p, p.queued)
    ensures LateShare(Pass(items, starts, ts, slots, total, 0, [], p).1, p.queued) <==>
              FillsFrom(items, starts, ts, slots, total, 0, [], p, p.queued)
  {
    LateFrom(items, starts, ts, slots, total, 0, [], p, p.queued);
  }
}
