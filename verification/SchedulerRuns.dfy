/** Runs without interrupts and failed launches, turn by turn, as the main loop makes them. */
module SchedulerRuns {
  import opened Wrappers
  import opened SchedulerProtocol
  import opened SchedulerBoxes
  import opened SchedulerPlaces
  import opened SchedulerQuotas
  import opened SchedulerPass
  import opened SchedulerModel
  import opened SchedulerLate
  import opened SchedulerCount

  // ---- turns ----

  /** The jobs of the first target are queued, in some order, and all others wait. */
  ghost predicate FirstQueued(items: seq<Job>, p: Pool) {
    && TargetsOf(items) != []
    && (forall j :: j in p.status <==> j in items && j.target == TargetsOf(items)[0])
    && (forall j :: j in p.status ==> p.status[j] == Q)
    && QueuesHold(items, p)
  }

  /** Every target has a queue, and the queues hold the queued jobs. */
  ghost predicate QueuesHold(items: seq<Job>, p: Pool) {
    && (forall t :: t in p.queued <==> t in TargetsOf(items)) && Queues(items, p)
    && forall j :: j in p.status && p.status[j] == Q ==> j.target in p.queued && j in p.queued[j.target]
  }

  /** A dispatch pass with a limit on the jobs running at a time. */
  ghost function DispatchOf(items: seq<Job>, starts: Job -> bool, limit: nat, p: Pool): Pool {
    var slots, total := limit - |RunningJobs(items, p.status)|, HeadWeights(TargetsOf(items), p.queued);
    if slots <= 0 || total == 0 then p else Pass(items, starts, TargetsOf(items), slots, total, 0, [], p).0
  }

  /** One turn: polling finds one job complete, or all still running; then comes a pass. */
  ghost function TurnOf(items: seq<Job>, starts: Job -> bool, limit: nat, p: Pool, done: Option<Event>): Pool {
    DispatchOf(items, starts, limit, if done.Some? then Completed(items, p, done.value.job, done.value.status) else p)
  }

  ghost function After(items: seq<Job>, starts: Job -> bool, limit: nat, p: Pool, turns: seq<Option<Event>>): Pool {
    if turns == [] then p
    else
      var n := |turns| - 1;
      TurnOf(items, starts, limit, After(items, starts, limit, p, turns[..n]), turns[n])
  }

  predicate Running(s: Statuses, x: Job) {
    x in s && s[x] == D
  }

  ghost predicate CanHappen(p: Pool, done: Option<Event>) {
    done.Some? ==> Running(p.status, done.value.job) && Final(done.value.status)
  }

  /** In each turn it is a running job that polling finds complete. */
  ghost predicate Possible(items: seq<Job>, starts: Job -> bool, limit: nat, p: Pool, turns: seq<Option<Event>>) {
    turns == [] ||
    (var n := |turns| - 1;
     && Possible(items, starts, limit, p, turns[..n])
     && CanHappen(After(items, starts, limit, p, turns[..n]), turns[n]))
  }

  lemma OneMoreTurn(items: seq<Job>, starts: Job -> bool, limit: nat, p: Pool, turns: seq<Option<Event>>,
                    done: Option<Event>)
    requires Possible(items, starts, limit, p, turns) && CanHappen(After(items, starts, limit, p, turns), done)
    ensures Possible(items, starts, limit, p, turns + [done])
    ensures After(items, starts, limit, p, turns + [done]) ==
            TurnOf(items, starts, limit, After(items, starts, limit, p, turns), done)
  {
    assert (turns + [done])[..|turns|] == turns;
  }

  // ---- what becomes of a job if every job that runs passes ----

  /** The job can come to pass: all its scheduled dependencies can, or at least one if it does not need all. */
  predicate CanPass(items: seq<Job>, j: Job) {
    if j.needsAll then forall d :: d in j.deps && d in items ==> CanPass(items, d)
    else exists d :: d in j.deps && d in items && CanPass(items, d)
  }

  /** Only jobs that can pass are dispatched. */
  ghost predicate Fated(items: seq<Job>, s: Statuses) {
    forall j :: j in s && (s[j] == D || s[j] == P) ==> CanPass(items, j)
  }

  /** Jobs that can pass have been dispatched and have not failed; the others have been cancelled. */
  ghost predicate AllPass(items: seq<Job>, s: Statuses) {
    forall j :: j in s && s[j] != Q ==> if CanPass(items, j) then s[j] == D || s[j] == P else s[j] == K
  }

  lemma MayRunIfCanPass(items: seq<Job>, s: Statuses, j: Job)
    requires DepsDone(items, s, j)
    ensures Fated(items, s) && MayRun(items, s, j) ==> CanPass(items, j)
    ensures AllPass(items, s) ==> (MayRun(items, s, j) <==> CanPass(items, j))
  {
    if !AllPass(items, s) { return; }
    forall d | d in j.deps && d in items ensures d in s && (s[d] == P <==> CanPass(items, d)) {
      assert Terminal(s, d);
    }
  }

  // ---- what turns keep ----

  ghost predicate Sound(items: seq<Job>, p: Pool) {
    Layered(items) && Settled(items, p.status) && QueuesHold(items, p) && Fated(items, p.status)
  }

  lemma StartIsSound(items: seq<Job>, p: Pool)
    requires Wired(items) && FirstQueued(items, p)
    ensures Sound(items, p)
  {
    hide TargetsOf, Follows, DepsDone, QueuesHold;
    FirstTargetReady(items);
    forall j ensures j in p.status <==> j in Ready(items, map[]) {}
    FirstSettled(items, p.status);
  }

  lemma FirstSettled(items: seq<Job>, s: Statuses)
    requires forall j :: j in s <==> j in Ready(items, map[])
    requires forall j :: j in s ==> s[j] == Q
    ensures Settled(items, s)
  {
    forall j ensures DepsDone(items, s, j) <==> DepsDone(items, map[], j) {
      forall d ensures !Terminal(s, d) && !Terminal(map[], d) {}
    }
  }

  lemma CompletedStatus(items: seq<Job>, p: Pool, x: Job, st: Status)
    requires Running(p.status, x)
    ensures var s, t := p.status[x := st], Completed(items, p, x, st).status;
            && (forall j :: j in t <==> j in s || (j in items && x in j.deps && DepsDone(items, s, j)))
            && (forall j :: j in t ==> t[j] == if j in s then s[j] else Q)
  {
    hide DepsDone, Successors;
    var s := p.status[x := st];
    SuccessorsMembers(items, items, s, x);
    QueueAllStatus(Pool(s, p.queued), Successors(items, items, s, x));
  }

  lemma CompletedSettled(items: seq<Job>, p: Pool, x: Job, st: Status)
    requires Settled(items, p.status) && Running(p.status, x) && Final(st)
    ensures Settled(items, Completed(items, p, x, st).status)
    ensures Continues(p.status, Completed(items, p, x, st).status)
  {
    var s, t := p.status[x := st], Completed(items, p, x, st).status;
    CompletedStatus(items, p, x, st);
    hide Completed;
    forall d ensures Terminal(t, d) <==> Terminal(s, d) {}
    forall d ensures Terminal(s, d) <==> Terminal(p.status, d) || d == x {}
    forall j | j in items && DepsDone(items, t, j) ensures j in t {
      assert DepsDone(items, s, j);
      if x !in j.deps { assert DepsDone(items, p.status, j); }
      assert j !in Ready(items, p.status);
    }
    forall j | j in t ensures j in items && DepsDone(items, t, j) {
      assert j in p.status ==> DepsDone(items, p.status, j);
    }
  }

  lemma CompletedQueues(items: seq<Job>, p: Pool, x: Job, st: Status)
    requires QueuesHold(items, p) && Running(p.status, x) && Final(st)
    requires forall j :: j in items ==> j.target in TargetsOf(items)
    ensures QueuesHold(items, Completed(items, p, x, st))
  {
    hide DepsDone, Successors, QueueAll, QueueOf, Within, Distinct;
    var s, q := p.status[x := st], Completed(items, p, x, st);
    var l := Successors(items, items, s, x);
    CompletedStatus(items, p, x, st);
    SuccessorsMembers(items, items, s, x);
    SuccessorsDistinct(items, items, s, x);
    QueueAllQueues(Pool(s, p.queued), l);
    forall u | u in q.queued
      ensures QueueOf(items, q.status, u, q.queued[u]) && q.queued[u] == p.queued[u] + Within(l, u)
    {
      assert QueueOf(items, p.status, u, p.queued[u]);
      QueueJoined(items, p.status, x, q.status, u, p.queued[u], l);
    }
    forall j | j in q.status && q.status[j] == Q ensures j.target in q.queued && j in q.queued[j.target] {
      WithinMembers(l, j.target);
    }
  }

  lemma QueueJoined(items: seq<Job>, s: Statuses, x: Job, t: Statuses, u: Target, was: seq<Job>, l: seq<Job>)
    requires QueueOf(items, s, u, was) && x in s && s[x] != Q && Distinct(l)
    requires forall j :: j in l ==> j in items && j !in s && j in t && t[j] == Q
    requires forall j :: j in s && j != x ==> j in t && t[j] == s[j]
    ensures QueueOf(items, t, u, was + Within(l, u))
  {
    WithinMembers(l, u);
    WithinDistinct(l, u);
    DistinctConcat(was, Within(l, u));
  }

  /** A turn of the pass, launches included, in terms of the statuses before. */
  ghost predicate Turning(items: seq<Job>, p: Pool, t: Target, quota: nat, q: Pool)
    requires t in p.queued
  {
    var list, s := p.queued[t], p.status;
    var c, batch := Reached(items, s, list, quota), Chosen(items, s, list, quota);
    && (forall j :: j in q.status <==> j in s || j in Freed(items, s, c))
    && (forall j :: j in q.status ==>
          q.status[j] == if j in batch then D else if j in c then K else if j in s then s[j] else Q)
    && t in q.queued && q.queued[t] == Rest(items, s, list, quota)
  }

  lemma {:induction false} AllLaunched(items: seq<Job>, s: Statuses, jobs: seq<Job>, starts: Job -> bool)
    requires forall j :: j in jobs ==> starts(j)
    ensures var t := LaunchInTurn(items, s, jobs, starts);
            && (forall j :: j in t <==> j in s || j in jobs)
            && (forall j :: j in t ==> t[j] == if j in jobs then D else s[j])
  {
    if jobs != [] {
      var n := |jobs| - 1;
      AllLaunched(items, s, jobs[..n], starts);
      assert jobs == jobs[..n] + [jobs[n]];
    }
  }

  lemma TurnIs(items: seq<Job>, starts: Job -> bool, p: Pool, t: Target, quota: nat)
    requires t in p.queued && Ahead(items, p, t, p.queued[t]) && forall j :: starts(j)
    ensures Turning(items, p, t, quota, TargetTurn(items, starts, p, t, quota).0)
  {
    hide Settled, Layered, Queues, Gains, Freed, Reached, Chosen, Rest, Take, MayRun, LaunchInTurn;
    var list := p.queued[t];
    TakeEffect(items, p, t, list, quota);
    TakeIsChosen(items, p, t, list, quota);
    var (q, batch) := Take(items, p, t, list, quota);
    AllLaunched(items, q.status, batch, starts);
    assert QueueOf(items, q.status, t, batch);
  }

  /** Running and complete jobs keep their statuses, and none passes. */
  ghost predicate Kept(s: Statuses, t: Statuses) {
    && (forall j :: j in s ==> j in t && (s[j] != Q ==> t[j] == s[j]))
    && (forall j :: j in t && t[j] == P ==> j in s && s[j] == P)
  }

  /** Turns of a pass keep the queues complete; and one with a quota uses up work. */
  lemma TurnKeeps(items: seq<Job>, ts: seq<Target>, i: nat, p: Pool, was: Lists, quota: nat, q: Pool)
    requires Underway(items, ts, i, p, was) && i < |ts| && p.queued[ts[i]] != [] && QueuesHold(items, p)
    requires Turning(items, p, ts[i], quota, q)
    requires Turned(items, p, ts[i], Reached(items, p.status, p.queued[ts[i]], quota), q)
    ensures QueuesHold(items, q) && Kept(p.status, q.status)
    ensures Work(items, q.status) <= Work(items, p.status)
    ensures quota > 0 ==> Work(items, q.status) < Work(items, p.status)
  {
    hide QueuesHold, Layered, Settled, Turning;
    TurnCovers(items, ts, i, p, was, quota, q);
    assert QueueOf(items, p.status, ts[i], p.queued[ts[i]]);
    TurnMoves(items, p, ts[i], quota, q);
    WorkLess(items, p.status, q.status, p.queued[ts[i]][0]);
  }

  lemma TurnMoves(items: seq<Job>, p: Pool, t: Target, quota: nat, q: Pool)
    requires t in p.queued && p.queued[t] != [] && QueueOf(items, p.status, t, p.queued[t])
    requires Turning(items, p, t, quota, q)
    ensures Kept(p.status, q.status)
    ensures forall j :: Stage(q.status, j) <= Stage(p.status, j)
    ensures quota > 0 ==> Stage(q.status, p.queued[t][0]) < Stage(p.status, p.queued[t][0])
  {
    hide MayRun, Reached, Chosen, Rest;
    var list := p.queued[t];
    ChosenMembers(items, p.status, list, quota);
    assert forall j :: j in Freed(items, p.status, Reached(items, p.status, list, quota)) ==> j !in p.status;
    hide Freed;
    if quota > 0 { HeadMoves(items, p.status, list, quota); }
  }

  lemma TurnPasses(items: seq<Job>, p: Pool, t: Target, quota: nat, q: Pool)
    requires t in p.queued && QueueOf(items, p.status, t, p.queued[t]) && Settled(items, p.status)
    requires Turning(items, p, t, quota, q) && Fated(items, p.status)
    ensures Fated(items, q.status)
    ensures AllPass(items, p.status) ==> AllPass(items, q.status)
  {
    hide MayRun, Reached, Chosen, Rest, Freed, CanPass, DepsDone;
    ChosenMembers(items, p.status, p.queued[t], quota);
    forall j | j in p.queued[t]
      ensures MayRun(items, p.status, j) ==> CanPass(items, j)
      ensures AllPass(items, p.status) ==> (MayRun(items, p.status, j) <==> CanPass(items, j))
    {
      MayRunIfCanPass(items, p.status, j);
    }
  }

  lemma HeadMoves(items: seq<Job>, s: Statuses, list: seq<Job>, quota: nat)
    requires list != [] && quota > 0
    ensures list[0] in Chosen(items, s, list, quota) || list[0] in Reached(items, s, list, quota)
  {
  }

  lemma {:induction false} WorkLess(items: seq<Job>, s: Statuses, t: Statuses, x: Job)
    requires forall j :: Stage(t, j) <= Stage(s, j)
    ensures Work(items, t) <= Work(items, s)
    ensures x in items && Stage(t, x) < Stage(s, x) ==> Work(items, t) < Work(items, s)
  {
    if items != [] {
      WorkLess(items[..|items| - 1], s, t, x);
      assert items == items[..|items| - 1] + [items[|items| - 1]];
    }
  }

  lemma TurnCovers(items: seq<Job>, ts: seq<Target>, i: nat, p: Pool, was: Lists, quota: nat, q: Pool)
    requires Underway(items, ts, i, p, was) && i < |ts| && QueuesHold(items, p)
    requires Turning(items, p, ts[i], quota, q)
    requires Turned(items, p, ts[i], Reached(items, p.status, p.queued[ts[i]], quota), q)
    ensures QueuesHold(items, q)
  {
    hide Settled, Layered, Follows, MayRun, Reached, Chosen, Rest, Freed;
    var t, list, s := ts[i], p.queued[ts[i]], p.status;
    var c := Reached(items, s, list, quota);
    ChosenMembers(items, s, list, quota);
    forall j | j in q.status && q.status[j] == Q ensures j.target in q.queued && j in q.queued[j.target] {
      if j in s {
        if j.target != t {
          assert p.queued[j.target] <= q.queued[j.target];
        }
      } else {
        FreedFollows(items, p, ts, i, quota, j);
        assert j.target != t;
        var more := set y | y in Freed(items, s, c) && y.target == j.target;
        assert j in more;
        assert Gains(p.queued[j.target], q.queued[j.target], more);
      }
    }
  }

  lemma KeptOn(s: Statuses, t: Statuses, u: Statuses)
    requires Kept(s, t) && Kept(t, u)
    ensures Kept(s, u)
  {
    forall j | j in s && s[j] != Q ensures j in u && u[j] == s[j] { assert j in t && t[j] == s[j]; }
  }

  /** The rest of a pass keeps this too, and uses up work if it grants anything. */
  lemma {:induction false} PassKeeps(
    items: seq<Job>, starts: Job -> bool, ts: seq<Target>, slots: nat, total: nat, i: nat,
    plan: seq<Share>, p: Pool, was: Lists)
    requires total > 0 && Underway(items, ts, i, p, was) && QueuesHold(items, p) && Fated(items, p.status)
    requires forall j :: starts(j)
    ensures var (q, end) := Pass(items, starts, ts, slots, total, i, plan, p);
            && Sound(items, q) && Kept(p.status, q.status) && Work(items, q.status) <= Work(items, p.status)
            && (AllPass(items, p.status) ==> AllPass(items, q.status))
            && (Work(items, q.status) < Work(items, p.status) ||
                Sum(Quotas(slots, total, Weights(end))) == Sum(Quotas(slots, total, Weights(plan))))
    decreases |ts| - i
  {
    hide Layered, Settled, Queues, QueuesHold, TargetTurn, FillsEmpty, Grant, Kept, Work, Sum, Quotas, Weights,
         Turning, Turned, AllPass, Fated;
    if i >= |ts| {
      KeptNone(p.status);
    } else if p.queued[ts[i]] == [] {
      PassKeeps(items, starts, ts, slots, total, i + 1, plan, p, was);
    } else {
      var w := p.queued[ts[i]][0].weight;
      var quota := Grant(slots, total, Weights(plan), w);
      var (q, jobs) := TargetTurn(items, starts, p, ts[i], quota);
      UnderwayStep(items, starts, ts, i, p, was, quota);
      TurnEffect(items, starts, p, ts[i], quota);
      TurnIs(items, starts, p, ts[i], quota);
      TurnKeeps(items, ts, i, p, was, quota, q);
      QueuesMean(items, p, ts[i]);
      TurnPasses(items, p, ts[i], quota, q);
      PlanMore(plan, Share(ts[i], w, jobs));
      QuotasMore(slots, total, Weights(plan), w);
      PassKeeps(items, starts, ts, slots, total, i + 1, plan + [Share(ts[i], w, jobs)], q, was);
      KeptOn(p.status, q.status, Pass(items, starts, ts, slots, total, i, plan, p).0.status);
    }
  }

  lemma QueuesMean(items: seq<Job>, p: Pool, t: Target)
    requires Queues(items, p) && t in p.queued
    ensures QueueOf(items, p.status, t, p.queued[t])
  {
  }

  lemma KeptNone(s: Statuses)
    ensures Kept(s, s)
  {
  }

  lemma PassStarts(items: seq<Job>, p: Pool)
    requires Sound(items, p)
    ensures Underway(items, TargetsOf(items), 0, p, p.queued)
  {
    hide Layered, Settled, Queues;
    TargetsOfSpec(items);
  }

  /** A whole pass; with slots free and something queued it uses up work. */
  lemma DispatchKeeps(items: seq<Job>, starts: Job -> bool, limit: nat, p: Pool)
    requires Sound(items, p) && forall j :: starts(j)
    ensures var q := DispatchOf(items, starts, limit, p);
            && Sound(items, q) && Kept(p.status, q.status) && Work(items, q.status) <= Work(items, p.status)
            && (AllPass(items, p.status) ==> AllPass(items, q.status))
            && (|RunningJobs(items, p.status)| < limit && HeadWeights(TargetsOf(items), p.queued) > 0 ==>
                  Work(items, q.status) < Work(items, p.status))
  {
    hide Layered, Settled, QueuesHold, Fated, Underway, Pass, Kept, AllPass, Work, Sum, Quotas, Weights, HeadWeights,
         RunningJobs, TargetsOf, LateWeight, LaunchesFrom, Ample, FillsFrom;
    var ts := TargetsOf(items);
    var slots, total := limit - |RunningJobs(items, p.status)|, HeadWeights(ts, p.queued);
    KeptNone(p.status);
    if slots > 0 && total > 0 {
      PassStarts(items, p);
      PassKeeps(items, starts, ts, slots, total, 0, [], p, p.queued);
      ExceedsOnlyIfFilled(items, starts, ts, slots, total, p);
      PassNone(slots, total, p.queued);
      var end := Pass(items, starts, ts, slots, total, 0, [], p).1;
      QuotasFillSlots(slots, total, LateWeight(end, p.queued), Weights(end));
    }
  }

  // ---- runs ----

  /** x is running, and its cfg has no waiting job in target t, so that the lookup on completion fails. */
  ghost predicate KeyLost(items: seq<Job>, s: Statuses, x: Job, t: Target) {
    Running(s, x) && forall y :: y in items && y.target == t && y.cfg == x.cfg ==> y in s
  }

  lemma {:induction false} SoundThroughout(
    items: seq<Job>, starts: Job -> bool, limit: nat, p: Pool, turns: seq<Option<Event>>)
    requires Wired(items) && FirstQueued(items, p) && forall j :: starts(j)
    requires Possible(items, starts, limit, p, turns)
    ensures Sound(items, After(items, starts, limit, p, turns))
  {
    hide Wired, FirstQueued, Sound, DispatchOf, Completed, CanHappen;
    if turns == [] {
      StartIsSound(items, p);
    } else {
      var n := |turns| - 1;
      SoundThroughout(items, starts, limit, p, turns[..n]);
      TurnIsSound(items, starts, limit, After(items, starts, limit, p, turns[..n]), turns[n]);
    }
  }

  lemma TurnIsSound(items: seq<Job>, starts: Job -> bool, limit: nat, p: Pool, done: Option<Event>)
    requires Sound(items, p) && CanHappen(p, done) && forall j :: starts(j)
    ensures Sound(items, TurnOf(items, starts, limit, p, done))
  {
    hide Layered, Settled, QueuesHold, Fated, DispatchOf, Completed, TargetsOf;
    if done.Some? { CompletedIsSound(items, p, done.value.job, done.value.status); }
    var m := if done.Some? then Completed(items, p, done.value.job, done.value.status) else p;
    DispatchKeeps(items, starts, limit, m);
  }

  lemma CompletedIsSound(items: seq<Job>, p: Pool, x: Job, st: Status)
    requires Sound(items, p) && Running(p.status, x) && Final(st)
    ensures Sound(items, Completed(items, p, x, st))
  {
    hide Layered, Settled, QueuesHold, CanPass, DepsDone, Completed;
    TargetsOfSpec(items);
    CompletedSettled(items, p, x, st);
    CompletedQueues(items, p, x, st);
    CompletedStatus(items, p, x, st);
  }

  /** A dependent of a running job waits, so the key is there. */
  lemma DependentKeeps(items: seq<Job>, p: Pool, x: Job, y: Job, t: Target)
    requires Sound(items, p) && InPlace(items) && x in items && y in items && x in y.deps
    requires Follows(TargetsOf(items), x.target, t)
    ensures !KeyLost(items, p.status, x, t)
  {
    hide TargetsOf, Follows, Layered, QueuesHold, Ready;
    FollowsOnce(TargetsOf(items), x.target, y.target, t);
    if Running(p.status, x) {
      assert !DepsDone(items, p.status, y) by { assert !Terminal(p.status, x); }
    }
  }

  lemma FollowsOnce(ts: seq<Target>, a: Target, b: Target, c: Target)
    requires Follows(ts, a, b) && Follows(ts, a, c)
    ensures b == c
  {
    assert ts[Index(ts, b)] == ts[Index(ts, c)];
  }

  /** What holds in a run in which x has not completed and every other job that ran has passed. */
  ghost predicate Waits(items: seq<Job>, p: Pool, x: Job) {
    Sound(items, p) && AllPass(items, p.status) && !Terminal(p.status, x)
  }

  lemma StillWaits(items: seq<Job>, s: Statuses, t: Statuses, x: Job)
    requires AllPass(items, t) && Kept(s, t) && !Terminal(s, x) && CanPass(items, x)
    ensures !Terminal(t, x)
  {
    hide CanPass;
  }

  lemma CompletedPasses(items: seq<Job>, p: Pool, y: Job, x: Job)
    requires Waits(items, p, x) && Running(p.status, y) && y != x && y in items
    ensures var m := Completed(items, p, y, P).status;
            AllPass(items, m) && !Terminal(m, x) && Work(items, m) < Work(items, p.status)
  {
    hide Sound, Completed, CanPass, DepsDone;
    CompletedStatus(items, p, y, P);
    WorkLess(items, p.status, Completed(items, p, y, P).status, y);
  }

  /** If nothing but x is running and something is queued, the next pass has a slot and a queue. */
  lemma SlotsFree(items: seq<Job>, p: Pool, x: Job, y: Job)
    requires Wired(items) && Sound(items, p) && (forall j :: Running(p.status, j) ==> j == x)
    requires y in p.status && p.status[y] == Q
    ensures |RunningJobs(items, p.status)| <= 1 && HeadWeights(TargetsOf(items), p.queued) > 0
  {
    hide Layered, Settled, InPlace, HaveDependencies, TargetsOf, HeadWeights;
    var running := RunningJobs(items, p.status);
    forall j | j in running ensures j == x { assert Running(p.status, j); }
    assert running == {} || running == {x};
    var ts := TargetsOf(items);
    var i :| 0 <= i < |ts| && ts[i] == y.target;
    var list := p.queued[y.target];
    assert QueueOf(items, p.status, y.target, list);
    FirstMember(list);
    HeadWeightsAtLeast(ts, p.queued, i);
  }

  /** In the turn of a run towards the end in which only x is left, either some other job completes, or a pass is made
      that uses up work. */
  lemma NextTurn(items: seq<Job>, starts: Job -> bool, limit: nat, p: Pool, x: Job) returns (done: Option<Event>)
    requires Wired(items) && Waits(items, p, x) && CanPass(items, x) && (forall j :: starts(j)) && limit >= 2
    requires exists y :: y in p.status && !Final(p.status[y]) && (y == x ==> p.status[y] == Q)
    ensures CanHappen(p, done)
    ensures var q := TurnOf(items, starts, limit, p, done);
            Waits(items, q, x) && Work(items, q.status) < Work(items, p.status)
  {
    hide Layered, Fated, DispatchOf, Completed, TargetsOf, Work, Kept, AllPass, CanPass, HeadWeights, RunningJobs,
         Follows, Ready, DepsDone;
    if y :| Running(p.status, y) && y != x {
      done := Some(Event(y, P));
      var m := Completed(items, p, y, P);
      CompletedIsSound(items, p, y, P);
      CompletedPasses(items, p, y, x);
      DispatchKeeps(items, starts, limit, m);
      StillWaits(items, m.status, DispatchOf(items, starts, limit, m).status, x);
    } else {
      done := None;
      var y :| y in p.status && !Final(p.status[y]) && (y == x ==> p.status[y] == Q);
      assert !(y != x && Running(p.status, y));
      SlotsFree(items, p, x, y);
      DispatchKeeps(items, starts, limit, p);
      StillWaits(items, p.status, DispatchOf(items, starts, limit, p).status, x);
    }
  }

  /** A run can go on until everything is complete but x, which keeps running. */
  lemma {:induction false} RunUntilLast(
    items: seq<Job>, starts: Job -> bool, limit: nat, p: Pool, before: seq<Option<Event>>, x: Job)
    returns (turns: seq<Option<Event>>)
    requires Wired(items) && CanPass(items, x) && x in items && (forall j :: starts(j)) && limit >= 2
    requires Possible(items, starts, limit, p, before) && Waits(items, After(items, starts, limit, p, before), x)
    requires forall y :: y in items ==> x !in y.deps
    ensures Possible(items, starts, limit, p, turns)
    ensures Running(After(items, starts, limit, p, turns).status, x)
    ensures forall y :: y in items && y != x ==> Terminal(After(items, starts, limit, p, turns).status, y)
    decreases Work(items, After(items, starts, limit, p, before).status)
  {
    hide Wired, CanPass, Waits, After, Possible, CanHappen, TurnOf, Work;
    var q := After(items, starts, limit, p, before);
    if exists y :: y in q.status && !Final(q.status[y]) && (y == x ==> q.status[y] == Q) {
      var done := NextTurn(items, starts, limit, q, x);
      OneMoreTurn(items, starts, limit, p, before, done);
      turns := RunUntilLast(items, starts, limit, p, before + [done], x);
    } else {
      turns := before;
      OnlyLastRuns(items, q, x);
    }
  }

  lemma OnlyLastRuns(items: seq<Job>, p: Pool, x: Job)
    requires Waits(items, p, x) && x in items && forall y :: y in items ==> x !in y.deps
    requires forall y :: y in p.status && !Final(p.status[y]) ==> y == x && p.status[y] != Q
    ensures Running(p.status, x)
    ensures forall y :: y in items && y != x ==> Terminal(p.status, y)
  {
    hide Layered, QueuesHold, AllPass;
    var s := p.status;
    forall y | y in items && y != x ensures Terminal(s, y) { OthersComplete(items, s, x, y); }
    NotOwnDependency(x);
    assert x in s || x in Ready(items, s);
  }

  /** Main theorem on the lookup, for runs without interrupts and failed launches, with at least two slots and a poll
      of every running job in each turn: whatever the order of the first jobs, no run loses the key before x
      completes if and only if x has a dependent. */
  lemma RunsNeedDependent(items: seq<Job>, starts: Job -> bool, limit: nat, p: Pool, x: Job, t: Target)
    requires Wired(items) && FirstQueued(items, p) && (forall j :: starts(j)) && limit >= 2
    requires x in items && Follows(TargetsOf(items), x.target, t)
    ensures !CanPass(items, x) || (exists y :: y in items && x in y.deps) <==>
              forall turns :: Possible(items, starts, limit, p, turns) ==>
                !KeyLost(items, After(items, starts, limit, p, turns).status, x, t)
  {
    hide TargetsOf, FirstQueued, CanPass, Possible, After, KeyLost, Sound, Follows;
    if !CanPass(items, x) {
      forall turns | Possible(items, starts, limit, p, turns)
        ensures !KeyLost(items, After(items, starts, limit, p, turns).status, x, t)
      {
        SoundThroughout(items, starts, limit, p, turns);
        NeverRuns(items, After(items, starts, limit, p, turns), x, t);
      }
    } else if y :| y in items && x in y.deps {
      forall turns | Possible(items, starts, limit, p, turns)
        ensures !KeyLost(items, After(items, starts, limit, p, turns).status, x, t)
      {
        SoundThroughout(items, starts, limit, p, turns);
        DependentKeeps(items, After(items, starts, limit, p, turns), x, y, t);
      }
    } else {
      StartWaits(items, starts, limit, p, x);
      var turns := RunUntilLast(items, starts, limit, p, [], x);
      LastLosesKey(items, After(items, starts, limit, p, turns).status, x, t);
    }
  }

  lemma NeverRuns(items: seq<Job>, p: Pool, x: Job, t: Target)
    requires Sound(items, p) && !CanPass(items, x)
    ensures !KeyLost(items, p.status, x, t)
  {
    hide CanPass, Layered, Settled, QueuesHold;
  }

  lemma StartWaits(items: seq<Job>, starts: Job -> bool, limit: nat, p: Pool, x: Job)
    requires Wired(items) && FirstQueued(items, p)
    ensures Possible(items, starts, limit, p, []) && Waits(items, After(items, starts, limit, p, []), x)
  {
    hide TargetsOf, Wired, QueuesHold, Sound;
    StartIsSound(items, p);
  }

  lemma LastLosesKey(items: seq<Job>, s: Statuses, x: Job, t: Target)
    requires Running(s, x) && Follows(TargetsOf(items), x.target, t)
    requires forall y :: y in items && y != x ==> Terminal(s, y)
    ensures KeyLost(items, s, x, t)
  {
    hide TargetsOf;
  }
}
