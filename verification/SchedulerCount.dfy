/** How many jobs a dispatch pass launches, read off the state in which it starts. */
module SchedulerCount {
  import opened Wrappers
  import opened SchedulerProtocol
  import opened SchedulerBoxes
  import opened SchedulerPlaces
  import opened SchedulerQuotas
  import opened SchedulerPass
  import opened SchedulerModel
  import opened SchedulerLate

  // ---- one target ----

  /** The first jobs of a queue that may run, as many as the quota. */
  function Chosen(items: seq<Job>, s: Statuses, list: seq<Job>, quota: nat): seq<Job> {
    if list == [] || quota == 0 then []
    else if MayRun(items, s, list[0]) then [list[0]] + Chosen(items, s, list[1..], quota - 1)
    else Chosen(items, s, list[1..], quota)
  }

  /** What a quota leaves in the queue. */
  function Rest(items: seq<Job>, s: Statuses, list: seq<Job>, quota: nat): seq<Job> {
    if list == [] || quota == 0 then list
    else Rest(items, s, list[1..], if MayRun(items, s, list[0]) then quota - 1 else quota)
  }

  function RunnableCount(items: seq<Job>, s: Statuses, list: seq<Job>): nat {
    if list == [] then 0
    else (if MayRun(items, s, list[0]) then 1 else 0) + RunnableCount(items, s, list[1..])
  }

  /** How many of the jobs chosen can be launched. */
  function LaunchCount(items: seq<Job>, starts: Job -> bool, s: Statuses, list: seq<Job>, quota: nat): nat {
    if list == [] || quota == 0 then 0
    else if MayRun(items, s, list[0]) then
      (if starts(list[0]) then 1 else 0) + LaunchCount(items, starts, s, list[1..], quota - 1)
    else LaunchCount(items, starts, s, list[1..], quota)
  }

  function Min(a: nat, b: nat): nat {
    if a <= b then a else b
  }

  /** The quota takes as many jobs as it can of those that may run; launched are those of them that can be. */
  lemma {:induction false} LaunchCounts(
    items: seq<Job>, starts: Job -> bool, s: Statuses, list: seq<Job>, quota: nat)
    ensures |Chosen(items, s, list, quota)| == Min(quota, RunnableCount(items, s, list))
    ensures LaunchCount(items, starts, s, list, quota) <= |Chosen(items, s, list, quota)|
    ensures (forall j :: j in Chosen(items, s, list, quota) ==> starts(j)) ==>
              LaunchCount(items, starts, s, list, quota) == |Chosen(items, s, list, quota)|
  {
    if list != [] && quota > 0 {
      hide MayRun;
      LaunchCounts(items, starts, s, list[1..], if MayRun(items, s, list[0]) then quota - 1 else quota);
      assert MayRun(items, s, list[0]) ==> list[0] in Chosen(items, s, list, quota);
    }
  }

  lemma {:induction false} ChosenMembers(items: seq<Job>, s: Statuses, list: seq<Job>, quota: nat)
    ensures forall j :: j in Chosen(items, s, list, quota) ==> j in list && MayRun(items, s, j)
    ensures forall j :: j in list && j !in Chosen(items, s, list, quota) ==>
              j in Reached(items, s, list, quota) || j in Rest(items, s, list, quota)
    ensures forall j :: j in Reached(items, s, list, quota) ==> j in list && !MayRun(items, s, j)
  {
    if list != [] && quota > 0 {
      hide MayRun;
      ChosenMembers(items, s, list[1..], if MayRun(items, s, list[0]) then quota - 1 else quota);
      assert list == [list[0]] + list[1..];
    }
  }

  lemma {:induction false} LaunchCountIs(
    items: seq<Job>, starts: Job -> bool, s: Statuses, list: seq<Job>, quota: nat)
    requires Distinct(list)
    ensures |Startable(Chosen(items, s, list, quota), starts)| == LaunchCount(items, starts, s, list, quota)
  {
    if list != [] && quota > 0 {
      hide MayRun;
      var x, may := list[0], MayRun(items, s, list[0]);
      var left := if may then quota - 1 else quota;
      LaunchCountIs(items, starts, s, list[1..], left);
      ChosenMembers(items, s, list[1..], left);
      var later := Chosen(items, s, list[1..], left);
      assert x !in later;
      StartableMore(x, later, starts);
    } else {
      assert Startable([], starts) == {};
    }
  }

  lemma StartableMore(x: Job, later: seq<Job>, starts: Job -> bool)
    requires x !in later
    ensures |Startable([x] + later, starts)| == (if starts(x) then 1 else 0) + |Startable(later, starts)|
  {
    var one: set<Job> := if starts(x) then {x} else {};
    assert Startable([x] + later, starts) == one + Startable(later, starts);
  }

  lemma {:induction false} ChosenAgree(items: seq<Job>, s: Statuses, t: Statuses, list: seq<Job>, quota: nat)
    requires forall j :: j in list ==> MayRun(items, s, j) == MayRun(items, t, j)
    ensures Chosen(items, s, list, quota) == Chosen(items, t, list, quota)
    ensures Rest(items, s, list, quota) == Rest(items, t, list, quota)
  {
    if list != [] && quota > 0 {
      hide MayRun;
      ChosenAgree(items, s, t, list[1..], if MayRun(items, s, list[0]) then quota - 1 else quota);
    }
  }

  /** Although cancellations on the way change statuses and queues, the jobs taken are those the state before names. */
  lemma {:induction false} TakeIsChosen(items: seq<Job>, p: Pool, t: Target, list: seq<Job>, quota: nat)
    requires Ahead(items, p, t, list)
    ensures var (q, batch) := Take(items, p, t, list, quota);
            && batch == Chosen(items, p.status, list, quota)
            && t in q.queued && q.queued[t] == Rest(items, p.status, list, quota)
    decreases |list|
  {
    if list != [] && quota > 0 {
      hide MayRun, CancelTaken, CancelsTo, Gains, Freed, Settled, Layered, Queues;
      var popped := Pool(p.status, p.queued[t := list[1..]]);
      if MayRun(items, p.status, list[0]) {
        PoppedAhead(items, p, t, list);
        TakeIsChosen(items, popped, t, list[1..], quota - 1);
      } else {
        CancelAhead(items, p, t, list);
        var m := CancelTaken(items, popped, list[0]);
        TakeIsChosen(items, m, t, list[1..], quota);
        StillMayRun(items, p, t, list, m.status);
        ChosenAgree(items, p.status, m.status, list[1..], quota);
      }
    } else {
      hide Settled, Layered, Queues;
    }
  }

  // ---- the pass ----

  /** From target i on, how many jobs the pass launches: in each turn the jobs that can be launched among the first that
      may run, as many as the quota. */
  ghost function LaunchesFrom(items: seq<Job>, starts: Job -> bool, ts: seq<Target>, slots: nat, total: nat, i: nat,
                              plan: seq<Share>, p: Pool): nat
    requires total > 0
    decreases |ts| - i
  {
    if i >= |ts| then 0
    else if ts[i] !in p.queued || p.queued[ts[i]] == [] then
      LaunchesFrom(items, starts, ts, slots, total, i + 1, plan, p)
    else
      var w := p.queued[ts[i]][0].weight;
      var quota := Grant(slots, total, Weights(plan), w);
      var (q, jobs) := TargetTurn(items, starts, p, ts[i], quota);
      LaunchCount(items, starts, p.status, p.queued[ts[i]], quota) +
      LaunchesFrom(items, starts, ts, slots, total, i + 1, plan + [Share(ts[i], w, jobs)], q)
  }

  /** From target i on, every turn finds as many jobs as its quota that may run and can be launched. */
  ghost predicate Ample(items: seq<Job>, starts: Job -> bool, ts: seq<Target>, slots: nat, total: nat, i: nat,
                        plan: seq<Share>, p: Pool)
    requires total > 0
    decreases |ts| - i
  {
    i < |ts| ==>
      if ts[i] !in p.queued || p.queued[ts[i]] == [] then Ample(items, starts, ts, slots, total, i + 1, plan, p)
      else
        var w := p.queued[ts[i]][0].weight;
        var quota := Grant(slots, total, Weights(plan), w);
        var (q, jobs) := TargetTurn(items, starts, p, ts[i], quota);
        && LaunchCount(items, starts, p.status, p.queued[ts[i]], quota) == quota
        && Ample(items, starts, ts, slots, total, i + 1, plan + [Share(ts[i], w, jobs)], q)
  }

  /** The jobs launched so far are of the first i targets. */
  ghost predicate Before(ts: seq<Target>, i: nat, jobs: seq<Job>) {
    i <= |ts| && forall j :: j in jobs ==> j.target in ts[..i]
  }

  lemma TurnCount(items: seq<Job>, starts: Job -> bool, ts: seq<Target>, i: nat, p: Pool, was: Lists, quota: nat,
                  jobs: seq<Job>)
    requires Underway(items, ts, i, p, was) && i < |ts| && Before(ts, i, jobs)
    ensures var more := TargetTurn(items, starts, p, ts[i], quota).1;
            && Before(ts, i + 1, jobs + more)
            && |Startable(jobs + more, starts)| == |Startable(jobs, starts)|
                 + LaunchCount(items, starts, p.status, p.queued[ts[i]], quota)
  {
    hide Settled, Layered, MayRun, Chosen, LaunchCount, LaunchInTurn, Take;
    var list := p.queued[ts[i]];
    TakeIsChosen(items, p, ts[i], list, quota);
    var more := Chosen(items, p.status, list, quota);
    assert QueueOf(items, p.status, ts[i], list);
    ChosenMembers(items, p.status, list, quota);
    LaunchCountIs(items, starts, p.status, list, quota);
    assert ts[..i + 1] == ts[..i] + [ts[i]] && ts[i] !in ts[..i];
    assert Startable(jobs + more, starts) == Startable(jobs, starts) + Startable(more, starts);
    assert Startable(jobs, starts) !! Startable(more, starts);
  }

  lemma {:induction false} LaunchesCounted(
    items: seq<Job>, starts: Job -> bool, ts: seq<Target>, slots: nat, total: nat, i: nat,
    plan: seq<Share>, p: Pool, was: Lists)
    requires total > 0 && Underway(items, ts, i, p, was) && Before(ts, i, Launches(plan))
    ensures |Startable(Launches(Pass(items, starts, ts, slots, total, i, plan, p).1), starts)| ==
            |Startable(Launches(plan), starts)| + LaunchesFrom(items, starts, ts, slots, total, i, plan, p)
    decreases |ts| - i
  {
    if i < |ts| {
      hide Layered, Settled, Queues, TargetTurn, FillsEmpty, Grant, Startable, Launches, LaunchCount;
      if p.queued[ts[i]] == [] {
        BeforeNext(ts, i, Launches(plan));
        LaunchesCounted(items, starts, ts, slots, total, i + 1, plan, p, was);
      } else {
        var w := p.queued[ts[i]][0].weight;
        var quota := Grant(slots, total, Weights(plan), w);
        var (q, jobs) := TargetTurn(items, starts, p, ts[i], quota);
        UnderwayStep(items, starts, ts, i, p, was, quota);
        TurnCount(items, starts, ts, i, p, was, quota, Launches(plan));
        PlanMore(plan, Share(ts[i], w, jobs));
        LaunchesCounted(items, starts, ts, slots, total, i + 1, plan + [Share(ts[i], w, jobs)], q, was);
      }
    }
  }

  lemma BeforeNext(ts: seq<Target>, i: nat, jobs: seq<Job>)
    requires Before(ts, i, jobs) && i < |ts|
    ensures Before(ts, i + 1, jobs)
  {
    assert ts[..i + 1] == ts[..i] + [ts[i]];
  }

  /** No turn launches more than its quota. */
  lemma {:induction false} LaunchesWithin(
    items: seq<Job>, starts: Job -> bool, ts: seq<Target>, slots: nat, total: nat, i: nat, plan: seq<Share>, p: Pool)
    requires total > 0
    ensures var granted := Sum(Quotas(slots, total, Weights(Pass(items, starts, ts, slots, total, i, plan, p).1)));
            var before := Sum(Quotas(slots, total, Weights(plan)));
            var launched := LaunchesFrom(items, starts, ts, slots, total, i, plan, p);
            && launched + before <= granted
            && (Ample(items, starts, ts, slots, total, i, plan, p) ==> launched + before == granted)
    decreases |ts| - i
  {
    if i < |ts| {
      hide TargetTurn, Grant, LaunchCount, Sum, Quotas, Weights;
      if ts[i] !in p.queued || p.queued[ts[i]] == [] {
        LaunchesWithin(items, starts, ts, slots, total, i + 1, plan, p);
      } else {
        var w := p.queued[ts[i]][0].weight;
        var quota := Grant(slots, total, Weights(plan), w);
        var (q, jobs) := TargetTurn(items, starts, p, ts[i], quota);
        LaunchCounts(items, starts, p.status, p.queued[ts[i]], quota);
        PlanMore(plan, Share(ts[i], w, jobs));
        QuotasMore(slots, total, Weights(plan), w);
        LaunchesWithin(items, starts, ts, slots, total, i + 1, plan + [Share(ts[i], w, jobs)], q);
      }
    }
  }

  // ---- the weights met ----

  /** The weight of the shares of queues that were empty. */
  function LateWeight(plan: seq<Share>, was: Lists): nat {
    if plan == [] then 0
    else
      var s := plan[|plan| - 1];
      LateWeight(plan[..|plan| - 1], was) + if s.target in was && was[s.target] == [] then s.weight else 0
  }

  lemma LateWeightMore(plan: seq<Share>, s: Share, was: Lists)
    ensures LateWeight(plan + [s], was) ==
            LateWeight(plan, was) + if s.target in was && was[s.target] == [] then s.weight else 0
  {
    assert (plan + [s])[..|plan|] == plan;
  }

  lemma {:induction false} NoLateWeight(plan: seq<Share>, was: Lists)
    requires !LateShare(plan, was)
    ensures LateWeight(plan, was) == 0
  {
    if plan != [] {
      assert plan[|plan| - 1] in plan;
      NoLateWeight(plan[..|plan| - 1], was);
    }
  }

  lemma {:induction false} WeightsMet(
    items: seq<Job>, starts: Job -> bool, ts: seq<Target>, slots: nat, total: nat, i: nat,
    plan: seq<Share>, p: Pool, was: Lists)
    requires total > 0 && Underway(items, ts, i, p, was) && i <= |ts|
    requires Sum(Weights(plan)) == HeadWeights(ts[..i], was) + LateWeight(plan, was)
    ensures var end := Pass(items, starts, ts, slots, total, i, plan, p).1;
            Sum(Weights(end)) == HeadWeights(ts, was) + LateWeight(end, was)
    decreases |ts| - i
  {
    if i < |ts| {
      hide Layered, Settled, Queues, TargetTurn, FillsEmpty, Grant, Sum, Weights, LateWeight, HeadWeights, Quotas;
      HeadWeightsMore(ts, was, i);
      if p.queued[ts[i]] == [] {
        WeightsMet(items, starts, ts, slots, total, i + 1, plan, p, was);
      } else {
        var w := p.queued[ts[i]][0].weight;
        var quota := Grant(slots, total, Weights(plan), w);
        var (q, jobs) := TargetTurn(items, starts, p, ts[i], quota);
        UnderwayStep(items, starts, ts, i, p, was, quota);
        PlanMore(plan, Share(ts[i], w, jobs));
        QuotasMore(slots, total, Weights(plan), w);
        LateWeightMore(plan, Share(ts[i], w, jobs), was);
        WeightsMet(items, starts, ts, slots, total, i + 1, plan + [Share(ts[i], w, jobs)], q, was);
      }
    } else {
      assert ts[..i] == ts;
    }
  }

  // ---- when more jobs are launched than there are slots ----

  lemma LaunchesExactly(items: seq<Job>, starts: Job -> bool, ts: seq<Target>, slots: nat, total: nat, p: Pool)
    requires total > 0 && Underway(items, ts, 0, p, p.queued)
    ensures |Startable(Launches(Pass(items, starts, ts, slots, total, 0, [], p).1), starts)| ==
            LaunchesFrom(items, starts, ts, slots, total, 0, [], p)
  {
    assert Startable([], starts) == {};
    LaunchesCounted(items, starts, ts, slots, total, 0, [], p, p.queued);
  }

  /** A pass launches more jobs than there are slots only if some turn fills a queue that was empty; if every turn
      finds as many jobs as its quota, it does so exactly if the weight of the queues filled does not round away. */
  lemma ExceedsOnlyIfFilled(items: seq<Job>, starts: Job -> bool, ts: seq<Target>, slots: nat, total: nat, p: Pool)
    requires total > 0 && Underway(items, ts, 0, p, p.queued) && total == HeadWeights(ts, p.queued)
    ensures LaunchesFrom(items, starts, ts, slots, total, 0, [], p) > slots ==>
              FillsFrom(items, starts, ts, slots, total, 0, [], p, p.queued)
    ensures var end := Pass(items, starts, ts, slots, total, 0, [], p).1;
            var late := LateWeight(end, p.queued);
            && Sum(Weights(end)) == total + late
            && (Ample(items, starts, ts, slots, total, 0, [], p) ==>
                  (LaunchesFrom(items, starts, ts, slots, total, 0, [], p) > slots <==>
                     2 * (slots * late) > total || (2 * (slots * late) == total && slots % 2 == 1)))
  {
    hide Underway, Pass, LaunchesFrom, FillsFrom, Ample, Grant, LateWeight, HeadWeights, Sum, Quotas, Weights, Round;
    PassNone(slots, total, p.queued);
    assert ts[..0] == [];
    WeightsMet(items, starts, ts, slots, total, 0, [], p, p.queued);
    LaunchesWithin(items, starts, ts, slots, total, 0, [], p);
    LateExactly(items, starts, ts, slots, total, p);
    var end := Pass(items, starts, ts, slots, total, 0, [], p).1;
    QuotasFillSlots(slots, total, LateWeight(end, p.queued), Weights(end));
    if !LateShare(end, p.queued) { NoLateWeight(end, p.queued); }
  }

  lemma PassNone(slots: nat, total: nat, was: Lists)
    requires total > 0
    ensures Weights([]) == [] && Sum([]) == 0 && Quotas(slots, total, []) == []
    ensures LateWeight([], was) == 0 && HeadWeights([], was) == 0
  {
  }
}
