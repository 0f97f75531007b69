/** One dispatch pass: what it has done after some of the targets. */
module SchedulerPass {
  import opened Wrappers
  import opened SchedulerProtocol
  import opened SchedulerBoxes
  import opened SchedulerPlaces
  import opened SchedulerQuotas

  datatype Moment = Moment(
    trace: seq<Event>, status: Statuses, launched: seq<Job>, queued: Lists, running: Lists)

  /** The start of a pass: free slots, the weight of the queues that are not empty, and whether every queued job
      may run. */
  datatype Snapshot = Snapshot(at: Moment, slots: nat, total: nat, runnable: bool, starts: Job -> bool)

  // ---- shares ----

  /** What a pass did for one target: the weight at the head of its queue and the jobs launched. */
  datatype Share = Share(target: Target, weight: nat, jobs: seq<Job>)

  function Weights(plan: seq<Share>): seq<nat> {
    if plan == [] then [] else Weights(plan[..|plan| - 1]) + [plan[|plan| - 1].weight]
  }

  function Launches(plan: seq<Share>): seq<Job> {
    if plan == [] then [] else Launches(plan[..|plan| - 1]) + plan[|plan| - 1].jobs
  }

  /** The jobs of a list that can be launched. */
  ghost function Startable(jobs: seq<Job>, starts: Job -> bool): set<Job> {
    set j | j in jobs && starts(j)
  }

  /** The jobs of a list that cannot be launched, in order. */
  ghost function Failures(jobs: seq<Job>, starts: Job -> bool): seq<Job> {
    if jobs == [] then []
    else
      var x := jobs[|jobs| - 1];
      Failures(jobs[..|jobs| - 1], starts) + if starts(x) then [] else [x]
  }

  lemma FailuresMore(jobs: seq<Job>, x: Job, starts: Job -> bool)
    ensures Failures([], starts) == []
    ensures Failures(jobs + [x], starts) == Failures(jobs, starts) + if starts(x) then [] else [x]
  {
    assert (jobs + [x])[..|jobs|] == jobs;
  }

  lemma NoFailures(starts: Job -> bool)
    ensures Failures([], starts) == []
  {
  }

  lemma OneFailure(x: Job, starts: Job -> bool)
    ensures Failures([x], starts) == if starts(x) then [] else [x]
  {
    FailuresMore([], x, starts);
  }

  /** One more share of a plan. */
  lemma FailuresOfPlan(plan: seq<Share>, s: Share, starts: Job -> bool)
    ensures Failures(Launches(plan + [s]), starts) == Failures(Launches(plan), starts) + Failures(s.jobs, starts)
  {
    PlanMore(plan, s);
    FailuresJoin(Launches(plan), s.jobs, starts);
  }

  lemma {:induction false} FailuresJoin(a: seq<Job>, b: seq<Job>, starts: Job -> bool)
    ensures Failures(a + b, starts) == Failures(a, starts) + Failures(b, starts)
  {
    if b == [] {
      assert a + b == a;
    } else {
      var m := |b| - 1;
      FailuresJoin(a, b[..m], starts);
      FailuresMore(a + b[..m], b[m], starts);
      assert a + b == a + b[..m] + [b[m]];
    }
  }

  /** Every target met launches jobs of its own, no more than its quota, and fewer only if its queue is empty now. */
  predicate Fair(slots: nat, total: nat, plan: seq<Share>, queued: Lists)
    requires total > 0
  {
    plan == [] ||
    (var front, last := plan[..|plan| - 1], plan[|plan| - 1];
     var q := Grant(slots, total, Weights(front), last.weight);
     && Fair(slots, total, front, queued)
     && last.target in queued && (forall j :: j in last.jobs ==> j.target == last.target)
     && |last.jobs| <= q && (|last.jobs| == q || queued[last.target] == []))
  }

  lemma PlanMore(plan: seq<Share>, s: Share)
    ensures Weights(plan + [s]) == Weights(plan) + [s.weight]
    ensures Launches(plan + [s]) == Launches(plan) + s.jobs
  {
    assert (plan + [s])[..|plan|] == plan;
  }

  lemma {:induction false} FairFrame(slots: nat, total: nat, plan: seq<Share>, was: Lists, now: Lists)
    requires total > 0 && Fair(slots, total, plan, was)
    requires forall s :: s in plan ==> s.target in was && s.target in now && now[s.target] == was[s.target]
    ensures Fair(slots, total, plan, now)
  {
    if plan != [] {
      hide Grant;
      assert plan[|plan| - 1] in plan;
      FairFrame(slots, total, plan[..|plan| - 1], was, now);
    }
  }

  lemma FairMore(slots: nat, total: nat, plan: seq<Share>, s: Share, was: Lists, now: Lists)
    requires total > 0 && Fair(slots, total, plan, was)
    requires forall r :: r in plan ==> r.target in was && r.target in now && now[r.target] == was[r.target]
    requires s.target in now && forall j :: j in s.jobs ==> j.target == s.target
    requires var q := Grant(slots, total, Weights(plan), s.weight);
             |s.jobs| <= q && (|s.jobs| == q || now[s.target] == [])
    ensures Fair(slots, total, plan + [s], now)
  {
    hide Grant;
    FairFrame(slots, total, plan, was, now);
    assert (plan + [s])[..|plan|] == plan;
  }

  /** Some share of the plan is of a target whose queue was empty. */
  ghost predicate LateShare(plan: seq<Share>, was: Lists) {
    exists s :: s in plan && s.target in was && was[s.target] == []
  }

  lemma LateMore(plan: seq<Share>, s: Share, was: Lists)
    requires s.target in was
    ensures LateShare(plan + [s], was) <==> LateShare(plan, was) || was[s.target] == []
  {
    assert s in plan + [s];
    forall r | r in plan ensures r in plan + [s] {}
  }

  // ---- the pass ----

  /** Was a job queued since for a target whose queue was empty? */
  ghost predicate QueueFilled(before: seq<Event>, after: seq<Event>, was: Lists) {
    exists i :: |before| <= i < |after| && FilledBy(after[i], was)
  }

  ghost predicate FilledBy(e: Event, was: Lists) {
    e.status == Q && e.job.target in was && was[e.job.target] == []
  }

  lemma EmptyPlan()
    ensures Weights([]) == [] && Launches([]) == [] && Sum([]) == 0
  {
  }

  /** What holds throughout. */
  ghost predicate PassFrame(items: seq<Job>, ts: seq<Target>, start: Snapshot, now: Moment) {
    && start.at.trace <= now.trace
    && Recorded(items, start.at.trace, start.at.status, start.at.launched)
    && ListBox(items, start.at.status, start.at.queued, Q, {})
    && start.total == HeadWeights(ts, start.at.queued)
    && Dispatches(items, start.at.status, now.status, start.starts)
    && (start.runnable ==> NoneQueued(start.at.status, now.status))
    && (start.runnable ==>
          forall t, j :: t in start.at.queued && j in start.at.queued[t] ==> MayRun(items, start.at.status, j))
  }

  /** The slots given out after i targets. */
  ghost predicate PassCount(ts: seq<Target>, start: Snapshot, i: nat, met: seq<nat>, filled: nat, now: Moment) {
    && (if start.total == 0 then filled == 0 else filled == Sum(Quotas(start.slots, start.total, met)))
    && TotalLen(now.running) <= TotalLen(start.at.running) + filled
    && (filled == 0 ==>
          now.trace == start.at.trace && now.running == start.at.running && now.queued == start.at.queued)
    && (filled > 0 ==> |now.trace| > |start.at.trace|)
  }

  /** The weights met after i targets: no less than those counted up front, and more only if a queue was filled. */
  ghost predicate PassWeights(ts: seq<Target>, start: Snapshot, i: nat, met: seq<nat>, late: bool, now: Moment) {
    && i <= |ts|
    && (forall k :: i <= k < |ts| ==>
          ts[k] in start.at.queued && ts[k] in now.queued && start.at.queued[ts[k]] <= now.queued[ts[k]])
    && Sum(met) >= HeadWeights(ts[..i], start.at.queued)
    && (if late then QueueFilled(start.at.trace, now.trace, start.at.queued) && !start.runnable
                      && Sum(met) > HeadWeights(ts[..i], start.at.queued)
        else Sum(met) == HeadWeights(ts[..i], start.at.queued))
  }

  /** Every share of a target whose queue was not empty has the weight then at its head. */
  ghost predicate HeadShares(plan: seq<Share>, was: Lists) {
    forall s :: s in plan && s.target in was && was[s.target] != [] ==> s.weight == was[s.target][0].weight
  }

  lemma NoHeads(was: Lists)
    ensures HeadShares([], was)
  {
  }

  lemma HeadShareMore(plan: seq<Share>, s: Share, was: Lists, now: Lists)
    requires HeadShares(plan, was) && s.target in was && s.target in now && was[s.target] <= now[s.target]
    requires now[s.target] != [] && now[s.target][0].weight == s.weight
    ensures HeadShares(plan + [s], was)
  {
  }

  lemma NotYetMet(ts: seq<Target>, start: Snapshot, i: nat, met: seq<nat>, late: bool, now: Moment)
    requires PassWeights(ts, start, i, met, late, now) && i < |ts|
    ensures ts[i] in start.at.queued && ts[i] in now.queued && start.at.queued[ts[i]] <= now.queued[ts[i]]
  {
    hide Sum, QueueFilled, HeadWeights;
  }

  /** What was launched for the first i targets. */
  ghost predicate PassShares(ts: seq<Target>, start: Snapshot, i: nat, plan: seq<Share>, now: Moment) {
    && now.launched == start.at.launched + Launches(plan) && Launched(Launches(plan), now.status, start.starts)
    && (start.total > 0 ==> Fair(start.slots, start.total, plan, now.queued))
    && (forall s :: s in plan ==> s.target in now.queued && exists k :: 0 <= k < i && k < |ts| && ts[k] == s.target)
  }

  ghost predicate Passing(items: seq<Job>, ts: seq<Target>, start: Snapshot, i: nat, plan: seq<Share>, filled: nat,
                          late: bool, now: Moment) {
    && PassFrame(items, ts, start, now)
    && PassCount(ts, start, i, Weights(plan), filled, now)
    && PassWeights(ts, start, i, Weights(plan), late, now)
    && (late <==> LateShare(plan, start.at.queued)) && HeadShares(plan, start.at.queued)
    && PassShares(ts, start, i, plan, now)
  }

  ghost predicate PassResult(items: seq<Job>, start: Snapshot, plan: seq<Share>, now: Moment) {
    var was := start.at;
    && was.trace <= now.trace && Sum(Weights(plan)) >= start.total
    && Dispatches(items, was.status, now.status, start.starts) && now.launched == was.launched + Launches(plan)
    && (start.total == 0 ==> now.trace == was.trace && now.running == was.running && now.queued == was.queued)
    && (start.total > 0 ==>
          var granted := Sum(Quotas(start.slots, start.total, Weights(plan)));
          && Fair(start.slots, start.total, plan, now.queued)
          && Launched(Launches(plan), now.status, start.starts)
          && TotalLen(now.running) <= TotalLen(was.running) + granted
          && (granted > 0 ==> |now.trace| > |was.trace|))
    && (!QueueFilled(was.trace, now.trace, was.queued) || start.runnable ==> Sum(Weights(plan)) == start.total)
    && (Sum(Weights(plan)) > start.total <==> LateShare(plan, was.queued)) && HeadShares(plan, was.queued)
  }

  lemma PassEnd(items: seq<Job>, ts: seq<Target>, start: Snapshot, plan: seq<Share>, filled: nat, late: bool,
                now: Moment)
    requires Passing(items, ts, start, |ts|, plan, filled, late, now)
    ensures PassResult(items, start, plan, now)
  {
    hide Recorded, ListBox, TotalLen, HeadWeights, Quotas, Sum, QueueFilled, NoneQueued, Dispatches, MayRun, Fair,
         LateShare, HeadShares;
    assert ts[..|ts|] == ts;
  }

  /** A target whose queue is empty. */
  lemma PassSkip(items: seq<Job>, ts: seq<Target>, start: Snapshot, i: nat, plan: seq<Share>, filled: nat,
                 late: bool, now: Moment)
    requires Passing(items, ts, start, i, plan, filled, late, now)
    requires i < |ts| && ts[i] in now.queued && now.queued[ts[i]] == []
    ensures Passing(items, ts, start, i + 1, plan, filled, late, now)
  {
    hide Recorded, ListBox, TotalLen, HeadWeights, Quotas, Sum, QueueFilled, NoneQueued, Dispatches, MayRun, Fair,
         Weights, LateShare, HeadShares;
    HeadWeightsMore(ts, start.at.queued, i);
    assert start.at.queued[ts[i]] <= now.queued[ts[i]];
  }

  lemma PassFacts(items: seq<Job>, ts: seq<Target>, start: Snapshot, i: nat, plan: seq<Share>, filled: nat,
                  late: bool, now: Moment)
    requires Passing(items, ts, start, i, plan, filled, late, now) && i < |ts|
    requires HeadWeights(ts, now.queued) > 0
    ensures PassFrame(items, ts, start, now)
    ensures ts[i] in start.at.queued && ts[i] in now.queued && start.at.queued[ts[i]] <= now.queued[ts[i]]
    ensures start.total > 0 && filled == Sum(Quotas(start.slots, start.total, Weights(plan)))
  {
    hide Recorded, ListBox, TotalLen, HeadWeights, Quotas, Sum, QueueFilled, NoneQueued, Dispatches, MayRun, Fair,
         Weights, LateShare, HeadShares;
  }

  /** What dispatching for one target does to the pass. */
  ghost predicate PassMove(ts: seq<Target>, target: Target, before: Moment, quota: nat, jobs: seq<Job>, now: Moment) {
    && before.trace <= now.trace && (quota > 0 ==> |now.trace| > |before.trace|)
    && (quota == 0 ==> now == before)
    && OthersGrow(ts, before.queued, now.queued, target)
    && TotalLen(now.running) <= TotalLen(before.running) + quota
    && now.launched == before.launched + jobs && (forall j :: j in jobs ==> j.target == target)
    && |jobs| <= quota && target in now.queued && (|jobs| == quota || now.queued[target] == [])
  }

  ghost predicate StepFits(items: seq<Job>, ts: seq<Target>, start: Snapshot, i: nat, plan: seq<Share>,
                           before: Moment, s: Share, now: Moment)
    requires start.total > 0
  {
    && i < |ts| && Distinct(ts) && s.target == ts[i]
    && ts[i] in before.queued && before.queued[ts[i]] != [] && before.queued[ts[i]][0].weight == s.weight
    && s.weight > 0
    && PassMove(ts, ts[i], before, Grant(start.slots, start.total, Weights(plan), s.weight), s.jobs, now)
    && Dispatches(items, before.status, now.status, start.starts) && Launched(s.jobs, now.status, start.starts)
    && (start.runnable ==> NoneQueued(before.status, now.status))
    && (ts[i] in start.at.queued && start.at.queued[ts[i]] == [] ==>
          QueueFilled(start.at.trace, before.trace, start.at.queued) && !start.runnable)
  }

  lemma FitsStep(items: seq<Job>, ts: seq<Target>, start: Snapshot, i: nat, plan: seq<Share>,
                 before: Moment, s: Share, now: Moment)
    requires start.total > 0 && i < |ts| && Distinct(ts) && s.target == ts[i]
    requires ts[i] in before.queued && before.queued[ts[i]] != [] && before.queued[ts[i]][0].weight == s.weight
    requires s.weight > 0
    requires PassMove(ts, ts[i], before, Grant(start.slots, start.total, Weights(plan), s.weight), s.jobs, now)
    requires Dispatches(items, before.status, now.status, start.starts) && Launched(s.jobs, now.status, start.starts)
    requires start.runnable ==> NoneQueued(before.status, now.status)
    requires ts[i] in start.at.queued && start.at.queued[ts[i]] == [] ==>
               QueueFilled(start.at.trace, before.trace, start.at.queued) && !start.runnable
    ensures StepFits(items, ts, start, i, plan, before, s, now)
  {
  }

  lemma PassStep(items: seq<Job>, ts: seq<Target>, start: Snapshot, i: nat, plan: seq<Share>, filled: nat,
                 late: bool, before: Moment, s: Share, now: Moment)
    requires start.total > 0 && Passing(items, ts, start, i, plan, filled, late, before)
    requires StepFits(items, ts, start, i, plan, before, s, now)
    ensures ts[i] in start.at.queued
    ensures Passing(items, ts, start, i + 1, plan + [s],
                    filled + Grant(start.slots, start.total, Weights(plan), s.weight),
                    late || start.at.queued[ts[i]] == [], now)
  {
    hide PassFrame, PassCount, PassWeights, PassShares, StepFits, Grant, Weights, LateShare, HeadShares;
    PlanMore(plan, s);
    PassFrameStep(items, ts, start, i, plan, before, s, now);
    PassCountStep(items, ts, start, i, plan, filled, before, s, now);
    PassWeightsStep(items, ts, start, i, plan, late, before, s, now);
    PassSharesStep(items, ts, start, i, plan, before, s, now);
    StepTarget(items, ts, start, i, plan, before, s, now);
    LateMore(plan, s, start.at.queued);
    NotYetMet(ts, start, i, Weights(plan), late, before);
    HeadShareMore(plan, s, start.at.queued, before.queued);
  }

  lemma StepTarget(items: seq<Job>, ts: seq<Target>, start: Snapshot, i: nat, plan: seq<Share>,
                   before: Moment, s: Share, now: Moment)
    requires start.total > 0 && StepFits(items, ts, start, i, plan, before, s, now)
    ensures i < |ts| && s.target == ts[i]
    ensures ts[i] in before.queued && before.queued[ts[i]] != [] && before.queued[ts[i]][0].weight == s.weight
  {
  }

  lemma PassFrameStep(items: seq<Job>, ts: seq<Target>, start: Snapshot, i: nat, plan: seq<Share>,
                      before: Moment, s: Share, now: Moment)
    requires start.total > 0 && PassFrame(items, ts, start, before)
    requires StepFits(items, ts, start, i, plan, before, s, now)
    ensures PassFrame(items, ts, start, now)
  {
    hide Recorded, ListBox, HeadWeights, Dispatches, NoneQueued, MayRun, DepsDone, Launched, QueueFilled, OthersGrow,
         Grant, Weights;
    var a := start.at;
    Later(items, a.trace, a.status, a.launched, a.trace, a.status, a.launched);
    DispatchesOn(items, a.status, before.status, now.status, start.starts);
    if start.runnable { NoneQueuedOn(a.status, before.status, now.status); }
  }

  lemma PassCountStep(items: seq<Job>, ts: seq<Target>, start: Snapshot, i: nat, plan: seq<Share>, filled: nat,
                      before: Moment, s: Share, now: Moment)
    requires start.total > 0 && PassCount(ts, start, i, Weights(plan), filled, before)
    requires StepFits(items, ts, start, i, plan, before, s, now)
    ensures PassCount(ts, start, i + 1, Weights(plan) + [s.weight],
                      filled + Grant(start.slots, start.total, Weights(plan), s.weight), now)
  {
    hide Dispatches, Launched, QueueFilled, OthersGrow, NoneQueued, Grant, Weights, Sum, Quotas, TotalLen;
    QuotasMore(start.slots, start.total, Weights(plan), s.weight);
  }

  /** One more share of the plan. */
  lemma PassShare(items: seq<Job>, ts: seq<Target>, start: Snapshot, i: nat, plan: seq<Share>, filled: nat,
                  late: bool, before: Moment, s: Share, now: Moment)
    requires start.total > 0 && Passing(items, ts, start, i, plan, filled, late, before)
    requires i < |ts| && Distinct(ts) && s.target == ts[i]
    requires ts[i] in before.queued && before.queued[ts[i]] != [] && before.queued[ts[i]][0].weight == s.weight
    requires s.weight > 0
    requires PassMove(ts, ts[i], before, Grant(start.slots, start.total, Weights(plan), s.weight), s.jobs, now)
    requires Dispatches(items, before.status, now.status, start.starts) && Launched(s.jobs, now.status, start.starts)
    requires start.runnable ==> NoneQueued(before.status, now.status)
    requires ts[i] in start.at.queued && start.at.queued[ts[i]] == [] ==>
               QueueFilled(start.at.trace, before.trace, start.at.queued) && !start.runnable
    ensures ts[i] in start.at.queued
    ensures Passing(items, ts, start, i + 1, plan + [s],
                    filled + Grant(start.slots, start.total, Weights(plan), s.weight),
                    late || start.at.queued[ts[i]] == [], now)
    ensures Sum(Weights(plan + [s])) == Sum(Weights(plan)) + s.weight
  {
    hide Passing, StepFits, PassMove, Grant, Weights, Sum, Quotas, Dispatches, Launched, NoneQueued, QueueFilled;
    FitsStep(items, ts, start, i, plan, before, s, now);
    PassStep(items, ts, start, i, plan, filled, late, before, s, now);
    PlanMore(plan, s);
    QuotasMore(start.slots, start.total, Weights(plan), s.weight);
  }

  lemma QueueFilledLater(trace: seq<Event>, before: seq<Event>, now: seq<Event>, was: Lists)
    requires QueueFilled(trace, before, was) && before <= now
    ensures QueueFilled(trace, now, was)
  {
    var i :| |trace| <= i < |before| && FilledBy(before[i], was);
    assert now[i] == before[i];
  }

  lemma PassWeightsStep(items: seq<Job>, ts: seq<Target>, start: Snapshot, i: nat, plan: seq<Share>, late: bool,
                        before: Moment, s: Share, now: Moment)
    requires start.total > 0 && PassWeights(ts, start, i, Weights(plan), late, before)
    requires StepFits(items, ts, start, i, plan, before, s, now)
    ensures ts[i] in start.at.queued
    ensures PassWeights(ts, start, i + 1, Weights(plan) + [s.weight], late || start.at.queued[ts[i]] == [], now)
  {
    hide Dispatches, Launched, NoneQueued, Grant, Weights, TotalLen;
    WeightsStep(ts, start, i, Weights(plan), late, before, s, now);
  }

  lemma WeightsStep(ts: seq<Target>, start: Snapshot, i: nat, met: seq<nat>, late: bool,
                    before: Moment, s: Share, now: Moment)
    requires PassWeights(ts, start, i, met, late, before) && i < |ts| && Distinct(ts)
    requires OthersGrow(ts, before.queued, now.queued, ts[i]) && before.trace <= now.trace
    requires ts[i] in before.queued && before.queued[ts[i]] != [] && before.queued[ts[i]][0].weight == s.weight
    requires s.weight > 0
    requires start.at.queued[ts[i]] == [] ==>
               QueueFilled(start.at.trace, before.trace, start.at.queued) && !start.runnable
    ensures PassWeights(ts, start, i + 1, met + [s.weight], late || start.at.queued[ts[i]] == [], now)
  {
    hide HeadWeights, QueueFilled, Follows;
    HeadWeightsMore(ts, start.at.queued, i);
    var more := met + [s.weight];
    assert more[..|more| - 1] == met;
    if late || start.at.queued[ts[i]] == [] {
      QueueFilledLater(start.at.trace, before.trace, now.trace, start.at.queued);
    }
    forall k | i + 1 <= k < |ts|
      ensures ts[k] in now.queued && start.at.queued[ts[k]] <= now.queued[ts[k]]
    {
      assert ts[k] != ts[i];
      assert start.at.queued[ts[k]] <= before.queued[ts[k]];
    }
    assert start.at.queued[ts[i]] <= before.queued[ts[i]];
  }

  /** A target does not follow a later one. */
  lemma EarlierStays(ts: seq<Target>, k: nat, i: nat)
    requires k < i < |ts| && Distinct(ts)
    ensures ts[k] != ts[i] && !Follows(ts, ts[i], ts[k])
  {
    IndexOfDistinct(ts, k);
    IndexOfDistinct(ts, i);
  }

  lemma PassSharesStep(items: seq<Job>, ts: seq<Target>, start: Snapshot, i: nat, plan: seq<Share>,
                       before: Moment, s: Share, now: Moment)
    requires start.total > 0 && PassShares(ts, start, i, plan, before)
    requires StepFits(items, ts, start, i, plan, before, s, now)
    ensures PassShares(ts, start, i + 1, plan + [s], now)
  {
    hide Grant, Fair, QueueFilled, TotalLen, Dispatches, Launched;
    LaunchedOn(items, Launches(plan), s.jobs, before.status, now.status, start.starts);
    forall r | r in plan
      ensures r.target in now.queued && now.queued[r.target] == before.queued[r.target]
      ensures exists k :: 0 <= k < i && k < |ts| && ts[k] == r.target
    {
      var k :| 0 <= k < i && k < |ts| && ts[k] == r.target;
      EarlierStays(ts, k, i);
    }
    FairMore(start.slots, start.total, plan, s, before.queued, now.queued);
    PlanMore(plan, s);
  }
}
