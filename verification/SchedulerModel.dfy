/** What a dispatch pass does, as a function of the statuses and queues it finds. */
module SchedulerModel {
  import opened Wrappers
  import opened SchedulerProtocol
  import opened SchedulerBoxes
  import opened SchedulerPlaces
  import opened SchedulerQuotas
  import opened SchedulerPass

  // ---- successors, in order ----

  /** The jobs of a list of waiting jobs that may be queued, in order. */
  function Selected(items: seq<Job>, s: Statuses, item: Option<Job>, list: seq<Job>): seq<Job> {
    if list == [] then []
    else
      var n := |list| - 1;
      Selected(items, s, item, list[..n]) +
      if (item.Some? ==> item.value in list[n].deps) && DepsDone(items, s, list[n]) then [list[n]] else []
  }

  /** The waiting jobs that depend on x and have become ready, in the order in which the jobs were given. */
  function Successors(items: seq<Job>, part: seq<Job>, s: Statuses, x: Job): seq<Job> {
    if part == [] then []
    else
      var n := |part| - 1;
      var j := part[n];
      Successors(items, part[..n], s, x) +
      if j !in s && j !in part[..n] && x in j.deps && DepsDone(items, s, j) then [j] else []
  }

  lemma {:induction false} SelectedSpec(items: seq<Job>, s: Statuses, item: Option<Job>, list: seq<Job>)
    requires Distinct(list)
    ensures Distinct(Selected(items, s, item, list))
    ensures forall j :: j in Selected(items, s, item, list) <==>
              j in list && (item.Some? ==> item.value in j.deps) && DepsDone(items, s, j)
  {
    if list != [] {
      hide DepsDone;
      var n := |list| - 1;
      SelectedSpec(items, s, item, list[..n]);
      assert list == list[..n] + [list[n]] && list[n] !in list[..n];
    }
  }

  lemma NoneSelected(items: seq<Job>, s: Statuses, item: Option<Job>)
    ensures Selected(items, s, item, []) == []
  {
  }

  lemma SelectedMore(items: seq<Job>, s: Statuses, item: Option<Job>, list: seq<Job>, j: Job)
    ensures Selected(items, s, item, list + [j]) == Selected(items, s, item, list) +
      if (item.Some? ==> item.value in j.deps) && DepsDone(items, s, j) then [j] else []
  {
    assert (list + [j])[..|list|] == list;
  }

  /** The selected jobs of some cfgs, in the order of the cfgs. */
  function Gathered(items: seq<Job>, s: Statuses, item: Option<Job>, m: map<Cfg, seq<Job>>, cfgs: seq<Cfg>): seq<Job> {
    if cfgs == [] then []
    else
      var n := |cfgs| - 1;
      Gathered(items, s, item, m, cfgs[..n]) +
      if cfgs[n] in m then Selected(items, s, item, m[cfgs[n]]) else []
  }

  lemma NoneGathered(items: seq<Job>, s: Statuses, item: Option<Job>, m: map<Cfg, seq<Job>>)
    ensures Gathered(items, s, item, m, []) == []
  {
  }

  lemma GatheredMore(items: seq<Job>, s: Statuses, item: Option<Job>, m: map<Cfg, seq<Job>>, cfgs: seq<Cfg>, c: Cfg)
    requires c in m
    ensures Gathered(items, s, item, m, cfgs + [c]) ==
            Gathered(items, s, item, m, cfgs) + Selected(items, s, item, m[c])
  {
    assert (cfgs + [c])[..|cfgs|] == cfgs;
  }

  lemma GatheredOne(items: seq<Job>, s: Statuses, item: Option<Job>, m: map<Cfg, seq<Job>>, cfgs: seq<Cfg>, c: Cfg)
    requires c in m && |cfgs| == 1 && forall d :: d in cfgs ==> d == c
    ensures Gathered(items, s, item, m, cfgs) == Selected(items, s, item, m[c])
  {
    assert cfgs[0] in cfgs;
    assert cfgs == [] + [c];
    NoneGathered(items, s, item, m);
    GatheredMore(items, s, item, m, [], c);
  }

  lemma {:induction false} SelectedIsSuccessors(
    items: seq<Job>, part: seq<Job>, s: Statuses, x: Job, t: Target, c: Cfg)
    requires forall y :: y in part && x in y.deps ==> y.target == t && y.cfg == c
    ensures Selected(items, s, Some(x), WaitingList(part, s, t, c)) == Successors(items, part, s, x)
  {
    if part != [] {
      hide DepsDone;
      var n := |part| - 1;
      var front, j := part[..n], part[n];
      SelectedIsSuccessors(items, front, s, x, t, c);
      var l := WaitingList(front, s, t, c);
      if j.target == t && j.cfg == c && j !in s && j !in front {
        SelectedMore(items, s, Some(x), l, j);
      } else {
        assert WaitingList(part, s, t, c) == l;
      }
    }
  }

  lemma {:induction false} NoSuccessors(items: seq<Job>, part: seq<Job>, s: Statuses, x: Job)
    requires forall y :: y in part ==> x !in y.deps
    ensures Successors(items, part, s, x) == []
  {
    if part != [] { NoSuccessors(items, part[..|part| - 1], s, x); }
  }

  lemma {:induction false} SuccessorsMembers(items: seq<Job>, part: seq<Job>, s: Statuses, x: Job)
    ensures forall j :: j in Successors(items, part, s, x) <==>
              j in part && j !in s && x in j.deps && DepsDone(items, s, j)
  {
    if part != [] {
      hide DepsDone;
      SuccessorsMembers(items, part[..|part| - 1], s, x);
      assert part == part[..|part| - 1] + [part[|part| - 1]];
    }
  }

  lemma {:induction false} SuccessorsDistinct(items: seq<Job>, part: seq<Job>, s: Statuses, x: Job)
    ensures Distinct(Successors(items, part, s, x))
  {
    if part != [] {
      hide DepsDone;
      SuccessorsDistinct(items, part[..|part| - 1], s, x);
      SuccessorsMembers(items, part[..|part| - 1], s, x);
    }
  }

  // ---- statuses and queues ----

  datatype Pool = Pool(status: Statuses, queued: Lists)

  function QueueOne(p: Pool, j: Job): Pool {
    Pool(p.status[j := Q], if j.target in p.queued then p.queued[j.target := p.queued[j.target] + [j]] else p.queued)
  }

  function QueueAll(p: Pool, l: seq<Job>): Pool {
    if l == [] then p else QueueOne(QueueAll(p, l[..|l| - 1]), l[|l| - 1])
  }

  lemma NoneQueuedYet(p: Pool)
    ensures QueueAll(p, []) == p
  {
  }

  lemma {:induction false} QueueAllStatus(p: Pool, l: seq<Job>)
    ensures forall j :: j in QueueAll(p, l).status <==> j in p.status || j in l
    ensures forall j :: j in QueueAll(p, l).status ==>
              QueueAll(p, l).status[j] == if j in l then Q else p.status[j]
  {
    if l != [] {
      QueueAllStatus(p, l[..|l| - 1]);
      assert l == l[..|l| - 1] + [l[|l| - 1]];
    }
  }

  lemma QueueAllMore(p: Pool, l: seq<Job>, j: Job)
    ensures QueueAll(p, l + [j]) == QueueOne(QueueAll(p, l), j)
  {
    assert (l + [j])[..|l|] == l;
  }

  /** A job takes on a final status: what becomes ready is queued. */
  function Completed(items: seq<Job>, p: Pool, x: Job, st: Status): Pool {
    var s := p.status[x := st];
    QueueAll(Pool(s, p.queued), Successors(items, items, s, x))
  }

  /** Of two jobs that become ready, the one given first is queued first. */
  lemma {:induction false} SuccessorsInOrder(items: seq<Job>, part: seq<Job>, s: Statuses, x: Job, a: nat, b: nat)
    requires a < b < |Successors(items, part, s, x)|
    ensures var l := Successors(items, part, s, x);
            exists n: nat :: n <= |part| && l[a] in part[..n] && l[b] !in part[..n]
  {
    hide DepsDone;
    var n := |part| - 1;
    var l := Successors(items, part, s, x);
    var front := Successors(items, part[..n], s, x);
    assert l[a] == front[a];
    if b < |front| {
      SuccessorsInOrder(items, part[..n], s, x, a, b);
      var k: nat :| k <= n && front[a] in part[..n][..k] && front[b] !in part[..n][..k];
      assert part[..n][..k] == part[..k];
    } else {
      SuccessorsMembers(items, part[..n], s, x);
      assert front[a] in part[..n] && l[b] == part[n];
    }
  }

  lemma {:induction false} QueueAllOfTarget(p: Pool, l: seq<Job>, t: Target)
    requires t in p.queued && forall j :: j in l ==> j.target == t
    ensures QueueAll(p, l).queued == p.queued[t := p.queued[t] + l]
  {
    if l != [] {
      var n := |l| - 1;
      QueueAllOfTarget(p, l[..n], t);
      assert l[n].target == t;
      assert p.queued[t] + l == p.queued[t] + l[..n] + [l[n]];
    } else {
      assert p.queued[t] + l == p.queued[t];
    }
  }

  /** A completed job changes no other status but those of the waiting jobs that depend on it and now have all
      dependencies complete, and these join the end of the queue of their target. */
  lemma CompletedEffect(items: seq<Job>, p: Pool, x: Job, st: Status, t: Target)
    requires t in p.queued && forall j :: j in items && x in j.deps ==> j.target == t
    ensures var l := Successors(items, items, p.status[x := st], x);
            && Distinct(l)
            && (forall j :: j in l <==>
                  j in items && x in j.deps && j != x && j !in p.status && DepsDone(items, p.status[x := st], j))
            && Completed(items, p, x, st).queued == p.queued[t := p.queued[t] + l]
            && Completed(items, p, x, st).status.Keys == p.status.Keys + {x} + (set j | j in l)
            && forall j :: j in Completed(items, p, x, st).status ==>
                 Completed(items, p, x, st).status[j] ==
                 if j in l then Q else if j == x then st else p.status[j]
  {
    hide DepsDone, Successors, QueueAll;
    var s := p.status[x := st];
    SuccessorsMembers(items, items, s, x);
    SuccessorsDistinct(items, items, s, x);
    QueueAllOfTarget(Pool(s, p.queued), Successors(items, items, s, x), t);
    QueueAllStatus(Pool(s, p.queued), Successors(items, items, s, x));
  }

  /** Cancelling a job taken off its queue. */
  function CancelTaken(items: seq<Job>, p: Pool, x: Job): Pool {
    Completed(items, p, x, K)
  }

  /** Taking jobs off the queue of t, whose content is the list, until enough are taken. */
  function Take(items: seq<Job>, p: Pool, t: Target, list: seq<Job>, quota: nat): (Pool, seq<Job>)
    decreases |list|
  {
    if list == [] || quota == 0 then (p, [])
    else
      var x, popped := list[0], Pool(p.status, p.queued[t := list[1..]]);
      if MayRun(items, p.status, x) then
        var (q, batch) := Take(items, popped, t, list[1..], quota - 1);
        (q, [x] + batch)
      else
        Take(items, CancelTaken(items, popped, x), t, list[1..], quota)
  }

  /** Once enough are taken or the list is empty. */
  lemma TakeEnds(items: seq<Job>, p: Pool, t: Target, list: seq<Job>, quota: nat)
    requires list == [] || quota == 0
    ensures Take(items, p, t, list, quota) == (p, [])
  {
  }

  /** The head is taken if it may run, and cancelled otherwise. */
  lemma TakeStep(items: seq<Job>, p: Pool, t: Target, list: seq<Job>, quota: nat)
    requires list != [] && quota > 0
    ensures var x, popped := list[0], Pool(p.status, p.queued[t := list[1..]]);
            Take(items, p, t, list, quota) ==
              if MayRun(items, p.status, x) then Joined([x], Take(items, popped, t, list[1..], quota - 1))
              else Take(items, CancelTaken(items, popped, x), t, list[1..], quota)
  {
  }

  function Joined(batch: seq<Job>, r: (Pool, seq<Job>)): (Pool, seq<Job>) {
    (r.0, batch + r.1)
  }

  lemma JoinedEnd(batch: seq<Job>, p: Pool)
    ensures Joined(batch, (p, [])) == (p, batch)
  {
    assert batch + [] == batch;
  }

  lemma JoinedJoin(a: seq<Job>, b: seq<Job>, r: (Pool, seq<Job>))
    ensures Joined([], r) == r && Joined(a, Joined(b, r)) == Joined(a + b, r)
  {
    assert [] + r.1 == r.1 && a + (b + r.1) == a + b + r.1;
  }

  // ---- cascades as a function ----

  lemma {:induction false} WorkOfAll(items: seq<Job>, part: seq<Job>, s: Statuses, r: set<Job>)
    requires forall j :: j in r ==> j !in s
    ensures Work(part, s + map j | j in r :: K) <= Work(part, s)
    ensures (exists j :: j in r && j in part) ==> Work(part, s + map j | j in r :: K) < Work(part, s)
  {
    if part != [] {
      var n := |part| - 1;
      WorkOfAll(items, part[..n], s, r);
      assert part == part[..n] + [part[n]];
    }
  }

  /** Cancels whatever is ready, again and again. */
  ghost function CascadeOf(items: seq<Job>, s: Statuses): Statuses
    decreases Work(items, s)
  {
    var r := Ready(items, s);
    if r == {} then s
    else
      WorkOfAll(items, items, s, r);
      CascadeOf(items, s + map j | j in r :: K)
  }

  lemma {:induction false} CascadeOfSpec(items: seq<Job>, s: Statuses)
    ensures Cascade(items, s, CascadeOf(items, s))
    decreases Work(items, s)
  {
    var r := Ready(items, s);
    if r != {} {
      WorkOfAll(items, items, s, r);
      var mid: Statuses := s + map j | j in r :: K;
      CascadeOfSpec(items, mid);
      var t := CascadeOf(items, mid);
      forall j | j in t && j !in s ensures j in items && t[j] == K && DepsDone(items, t, j) {
        if j in mid {
          assert j in r;
          assert Continues(s, t);
        }
      }
    }
  }

  /** Launching jobs in turn: a job that cannot be launched is killed with what depends on it alone. */
  ghost function LaunchInTurn(items: seq<Job>, s: Statuses, jobs: seq<Job>, starts: Job -> bool): Statuses {
    if jobs == [] then s
    else
      var n := |jobs| - 1;
      var before := LaunchInTurn(items, s, jobs[..n], starts);
      if starts(jobs[n]) then before[jobs[n] := D] else CascadeOf(items, before[jobs[n] := K])
  }

  lemma LaunchOneMore(items: seq<Job>, s: Statuses, jobs: seq<Job>, starts: Job -> bool, x: Job)
    ensures LaunchInTurn(items, s, jobs + [x], starts) ==
      var before := LaunchInTurn(items, s, jobs, starts);
      if starts(x) then before[x := D] else CascadeOf(items, before[x := K])
  {
    assert (jobs + [x])[..|jobs|] == jobs;
  }

  lemma NoneLaunchedYet(items: seq<Job>, s: Statuses, starts: Job -> bool)
    ensures LaunchInTurn(items, s, [], starts) == s
  {
  }

  /** Since some earlier moment, the jobs that run more are those dispatched since that could be launched. */
  lemma RunningSince(items: seq<Job>, before: seq<Event>, s: Statuses, ds: seq<Job>,
                     after: seq<Event>, t: Statuses, es: seq<Job>, starts: Job -> bool)
    requires Recorded(items, before, s, ds) && Recorded(items, after, t, es) && before <= after
    requires Dispatches(items, s, t, starts)
    ensures ds <= es
    ensures Launched(es[|ds|..], t, starts) ==>
              |RunningJobs(items, t)| == |RunningJobs(items, s)| + |Startable(es[|ds|..], starts)|
  {
    hide Dispatches, Startable, RunningJobs, Legal, Replay, Dispatched;
    assert after[..|before|] == before;
    DispatchedPrefix(after, |before|);
    var since := es[|ds|..];
    if Launched(since, t, starts) {
      forall j
        ensures j in since ==> Stage(s, j) >= 2
        ensures j in t && t[j] == D ==> j in since || (j in s && s[j] == D)
      {
        DispatchedSince(items, after, |before|, j);
      }
      forall j | j in since ensures j in items { StartedDepsDone(items, after, j); }
      RunningSplit(items, s, t, since, starts);
    }
  }

  lemma RunningSplit(items: seq<Job>, s: Statuses, t: Statuses, since: seq<Job>, starts: Job -> bool)
    requires Dispatches(items, s, t, starts) && Launched(since, t, starts)
    requires forall j :: j in since ==> j in items && Stage(s, j) >= 2
    requires forall j :: j in t && t[j] == D ==> j in since || (j in s && s[j] == D)
    ensures |RunningJobs(items, t)| == |RunningJobs(items, s)| + |Startable(since, starts)|
  {
    hide MayRun;
    var a, b, c := RunningJobs(items, t), RunningJobs(items, s), Startable(since, starts);
    assert a == b + c;
    assert b !! c;
  }

  // ---- the pass ----

  /** The turn of one target. */
  ghost function TargetTurn(items: seq<Job>, starts: Job -> bool, p: Pool, t: Target, quota: nat): (Pool, seq<Job>)
    requires t in p.queued
  {
    var (q, batch) := Take(items, p, t, p.queued[t], quota);
    (Pool(LaunchInTurn(items, q.status, batch, starts), q.queued), batch)
  }

  lemma NoTurn(items: seq<Job>, starts: Job -> bool, p: Pool, t: Target)
    requires t in p.queued
    ensures TargetTurn(items, starts, p, t, 0) == (p, [])
  {
  }

  /** The turns of the targets from i on. */
  ghost function Pass(items: seq<Job>, starts: Job -> bool, ts: seq<Target>, slots: nat, total: nat, i: nat,
                      plan: seq<Share>, p: Pool): (Pool, seq<Share>)
    requires total > 0
    decreases |ts| - i
  {
    if i >= |ts| then (p, plan)
    else if ts[i] !in p.queued || p.queued[ts[i]] == [] then Pass(items, starts, ts, slots, total, i + 1, plan, p)
    else
      var w := p.queued[ts[i]][0].weight;
      var (q, jobs) := TargetTurn(items, starts, p, ts[i], Grant(slots, total, Weights(plan), w));
      Pass(items, starts, ts, slots, total, i + 1, plan + [Share(ts[i], w, jobs)], q)
  }

  lemma PassSkips(items: seq<Job>, starts: Job -> bool, ts: seq<Target>, slots: nat, total: nat, i: nat,
                  plan: seq<Share>, p: Pool)
    requires total > 0 && i < |ts| && ts[i] in p.queued && p.queued[ts[i]] == []
    ensures Pass(items, starts, ts, slots, total, i, plan, p) == Pass(items, starts, ts, slots, total, i + 1, plan, p)
  {
  }

  lemma PassTurns(items: seq<Job>, starts: Job -> bool, ts: seq<Target>, slots: nat, total: nat, i: nat,
                  plan: seq<Share>, p: Pool)
    requires total > 0 && i < |ts| && ts[i] in p.queued && p.queued[ts[i]] != []
    ensures var w := p.queued[ts[i]][0].weight;
            var (q, jobs) := TargetTurn(items, starts, p, ts[i], Grant(slots, total, Weights(plan), w));
            Pass(items, starts, ts, slots, total, i, plan, p) ==
            Pass(items, starts, ts, slots, total, i + 1, plan + [Share(ts[i], w, jobs)], q)
  {
  }

  lemma PassEnds(items: seq<Job>, starts: Job -> bool, ts: seq<Target>, slots: nat, total: nat,
                 plan: seq<Share>, p: Pool)
    requires total > 0
    ensures Pass(items, starts, ts, slots, total, |ts|, plan, p) == (p, plan)
  {
  }
}
