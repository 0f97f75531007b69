/** The job scheduler: it queues jobs as their dependencies complete, dispatches queued jobs into free slots, polls
    running jobs, and on request kills everything. */
module Scheduling {
  import opened Wrappers
  import opened SchedulerProtocol
  import opened SchedulerBoxes
  import opened SchedulerPlaces
  import opened SchedulerQuotas
  import opened SchedulerPolling
  import opened SchedulerPass
  import opened SchedulerModel
  import opened SchedulerLate
  import opened SchedulerCount
  import opened SchedulerRuns
  import opened SchedulerFairness

  /** What happens outside: launching, polling and killing of jobs. Each poll of a job answers D a given number of
      times and then the job's verdict. The calls are logged. */
  class Launchers {
    const verdict: Job -> Status
    const starts: Job -> bool
    var pending: map<Job, nat>
    ghost var polled: seq<Job>
    ghost var launched: seq<Job>
    ghost var killed: seq<Job>

    ghost predicate Valid() {
      forall j :: Final(verdict(j))
    }

    constructor (verdict: Job -> Status, starts: Job -> bool, pending: map<Job, nat>)
      requires forall j :: Final(verdict(j))
      ensures Valid() && polled == [] && launched == [] && killed == []
      ensures this.verdict == verdict && this.starts == starts && this.pending == pending
    {
      this.verdict, this.starts, this.pending := verdict, starts, pending;
      polled, launched, killed := [], [], [];
    }

    method Poll(j: Job) returns (st: Status)
      requires Valid()
      modifies this`pending, this`polled
      ensures polled == old(polled) + [j]
      ensures if StillD(old(pending), j) > 0 then
                st == D && j in old(pending) && pending == old(pending)[j := old(pending[j]) - 1]
              else
                st == verdict(j) && Final(st) && pending == old(pending)
    {
      polled := polled + [j];
      if j in pending && pending[j] > 0 {
        pending := pending[j := pending[j] - 1];
        st := D;
      } else {
        st := verdict(j);
      }
    }

    method Launch(j: Job) returns (ok: bool)
      modifies this`launched
      ensures launched == old(launched) + [j]
      ensures ok == starts(j)
    {
      launched := launched + [j];
      ok := starts(j);
    }

    method Kill(j: Job)
      modifies this`killed
      ensures killed == old(killed) + [j]
    {
      killed := killed + [j];
    }
  }

  /** The number of jobs on all lists. */
  method SumDictLists<X(==, !new)>(d: map<X, seq<Job>>) returns (sum: nat)
    ensures sum == TotalLen(d)
  {
    sum := 0;
    var keys := d.Keys;
    ghost var rest := d;
    while keys != {}
      invariant rest.Keys == keys && forall k :: k in rest ==> k in d && rest[k] == d[k]
      invariant sum + TotalLen(rest) == TotalLen(d)
      decreases |keys|
    {
      var k :| k in keys;
      TotalLenPick(rest, k);
      sum := sum + |d[k]|;
      keys, rest := keys - {k}, rest - {k};
    }
  }

  /** The moment a round of polls begins. */
  datatype Visiting = Visiting(trace: seq<Event>, status: Statuses, running: Lists, marks: map<Target, int>,
                         polled: seq<Job>, pending: map<Job, nat>, potential: nat)

  /** What the polls since then did to the statuses. */
  ghost predicate Visited(verdict: Job -> Status, was: Visiting, now: Visiting) {
    && Polls(was.status, now.status, verdict)
    && Answered(was.status, was.pending, was.polled, now.status, now.pending, now.polled)
  }

  lemma NoneVisited(verdict: Job -> Status, was: Visiting)
    ensures Visited(verdict, was, was)
  {
    AnsweredNone(was.status, was.pending, was.polled);
  }

  lemma VisitedOn(verdict: Job -> Status, was: Visiting, mid: Visiting, now: Visiting)
    requires Visited(verdict, was, mid) && Visited(verdict, mid, now) && forall j :: Final(verdict(j))
    ensures Visited(verdict, was, now)
  {
    PollsOn(was.status, mid.status, now.status, verdict);
    AnsweredOn(was.status, was.pending, was.polled, mid.status, mid.pending, mid.polled,
               now.status, now.pending, now.polled);
  }

  /** A round of polls, so far. */
  ghost predicate RoundGoes(ts: seq<Target>, verdict: Job -> Status, was: Visiting, now: Visiting, last: int,
                            polls: nat, left: nat, changed: bool, start: int, wrapped: bool, moved: bool)
  {
    && was.trace <= now.trace && left <= polls <= TotalLen(now.running) + (polls - left)
    && (changed <==> |now.trace| > |was.trace|)
    && |now.polled| == |was.polled| + (polls - left)
    && now.potential + (polls - left) <= was.potential
    && -1 <= start < |ts| && -1 <= last < |ts|
    && (wrapped ==> last >= 0)
    && Visited(verdict, was, now)
    && (left > 0 ==> Passed(ts, now.running, start, last, wrapped))
    && (!moved ==> left == polls)
    && TurnsCome(ts, was.running, was.marks, start, was.polled, now.running, now.marks, last, now.polled, moved)
  }

  /** What polling one target did. */
  ghost predicate TargetPolled(verdict: Job -> Status, target: Target, polls: nat, left: nat, changed: bool,
                               was: Visiting, now: Visiting) {
    && was.trace <= now.trace && left <= polls && now.potential + (polls - left) <= was.potential
    && was.polled <= now.polled && |now.polled| == |was.polled| + (polls - left)
    && (changed <==> |now.trace| > |was.trace|)
    && target in was.running && target in now.running && now.running == was.running[target := now.running[target]]
    && (left == 0 || now.running[target] == [])
    && |now.running[target]| + (polls - left) >= |was.running[target]|
    && Visited(verdict, was, now)
    && target in was.marks && was.marks[target] >= -1 && target in now.marks
    && now.marks == was.marks[target := now.marks[target]]
    && (polls > 0 && was.running[target] != [] ==> left < polls)
    && Turns(was.running[target], was.marks[target], now.running[target], now.marks[target], polls - left,
             was.polled, now.polled)
  }

  /** A target being polled, so far. */
  ghost predicate TargetsVisit(verdict: Job -> Status, target: Target, polls: nat, left: nat, changed: bool,
                               was: Visiting, now: Visiting) {
    && was.trace <= now.trace && left <= polls && now.potential + (polls - left) <= was.potential
    && was.polled <= now.polled && |now.polled| == |was.polled| + (polls - left)
    && (changed <==> |now.trace| > |was.trace|)
    && target in was.running && target in now.running && now.running == was.running[target := now.running[target]]
    && |now.running[target]| + (polls - left) >= |was.running[target]|
    && Visited(verdict, was, now)
    && target in was.marks && target in now.marks && was.marks[target] >= -1 && now.marks[target] >= -1
    && now.marks == was.marks[target := now.marks[target]]
    && (now.trace == was.trace ==> now.running == was.running && WentRound(was.running[target], polls - left,
          was.marks[target], now.marks[target], was.polled, now.polled))
    && (left == polls ==> now.running == was.running && now.marks == was.marks && now.polled == was.polled)
    && Turns(was.running[target], was.marks[target], now.running[target], now.marks[target], polls - left,
             was.polled, now.polled)
  }

  lemma VisitGoesOn(verdict: Job -> Status, target: Target, polls: nat, left: nat, changed: bool,
                    was: Visiting, mid: Visiting, now: Visiting, st: Status)
    requires TargetsVisit(verdict, target, polls, left, changed, was, mid) && left > 0
    requires mid.running[target] != [] && forall j :: Final(verdict(j))
    requires var list, mark := mid.running[target], mid.marks[target];
             var at := NextIndex(|list|, mark);
             && now.polled == mid.polled + [list[at]] && now.potential < mid.potential
             && Visited(verdict, mid, now)
             && if st == D then
                  && now.running == mid.running && now.trace == mid.trace && now.marks == mid.marks[target := at]
                else
                  && now.running == mid.running[target := RemoveAt(list, at)] && mid.trace < now.trace
                  && now.marks == mid.marks[target := at - 1]
    ensures TargetsVisit(verdict, target, polls, left - 1, changed || st != D, was, now)
  {
    hide NextIndex, Visited, WentRound, RemoveAt, Turns;
    var list, mark := mid.running[target], mid.marks[target];
    VisitedOn(verdict, was, mid, now);
    if now.trace == was.trace {
      OnePolled(list, polls - left + 1, was.marks[target], mark, was.polled, mid.polled, now.polled);
    }
    TurnsOn(was.running[target], was.marks[target], polls - left, was.polled, mid.polled, list, mark,
            now.running[target], now.marks[target], now.polled);
    OneFewer(list, NextIndex(|list|, mark));
  }

  lemma OneFewer(list: seq<Job>, at: nat)
    requires at < |list|
    ensures |RemoveAt(list, at)| == |list| - 1
  {
  }

  lemma RoundGoesOn(ts: seq<Target>, verdict: Job -> Status, was: Visiting, mid: Visiting, now: Visiting, last: int,
                    polls: nat, left: nat, changed: bool, start: int, wrapped: bool, moved: bool, rest: nat, more: bool)
    requires RoundGoes(ts, verdict, was, mid, last, polls, left, changed, start, wrapped, moved) && left > 0
    requires Distinct(ts) && (forall t :: t in mid.running <==> t in ts) && forall j :: Final(verdict(j))
    requires ts != [] && TargetPolled(verdict, ts[NextIndex(|ts|, last)], left, rest, more, mid, now)
    ensures var i := NextIndex(|ts|, last);
            var wrapped' := wrapped || i != last + 1;
            && RoundGoes(ts, verdict, was, now, i, polls, rest, changed || more, start, wrapped', true)
            && 0 <= (if wrapped' then start - i else |ts| - i + start)
                 < if wrapped then start - last else |ts| - last + start
  {
    hide Passed, TotalLen, Visited, TurnsCome, Distinct, Turns, NextIndex;
    var target := ts[NextIndex(|ts|, last)];
    RoundNotOver(ts, mid.running, start, last, wrapped);
    RoundShrinks(|ts|, start, last, wrapped);
    VisitedOn(verdict, was, mid, now);
    TotalLenUpdate(mid.running, target, now.running[target]);
    if rest > 0 { PassOneMore(ts, mid.running, start, last, wrapped, now.running[target]); }
    TurnsComeOn(ts, was.running, was.marks, start, was.polled, mid.running, mid.marks, last, mid.polled, moved,
                now.running, now.marks, left - rest, now.polled);
  }

  lemma RoundShrinks(n: nat, start: int, last: int, wrapped: bool)
    requires n > 0 && -1 <= start < n && -1 <= last < n
    requires if wrapped then 0 <= last < start else start <= last && (last == n - 1 ==> start >= 0)
    ensures var i := NextIndex(n, last);
            var wrapped' := wrapped || i != last + 1;
            0 <= (if wrapped' then start - i else n - i + start) < if wrapped then start - last else n - last + start
  {
  }

  /** Is there ever an interrupt? */
  ghost predicate Stops(stop: nat -> bool) {
    exists n: nat :: stop(n)
  }

  ghost predicate StopsBefore(stop: nat -> bool, round: nat) {
    exists n: nat :: n < round && stop(n)
  }

  lemma NeverStopped(stop: nat -> bool)
    ensures !StopsBefore(stop, 0)
  {
  }

  lemma StopsMore(stop: nat -> bool, round: nat)
    ensures StopsBefore(stop, round + 1) <==> StopsBefore(stop, round) || stop(round)
  {
  }

  class Scheduler {
    const items: seq<Job>
    const launchers: Launchers
    const maxParallel: nat
    const maxPoll: nat
    var targets: seq<Target>
    var scheduled: Waiting
    var queued: Lists
    var running: Lists
    var passed: Sets
    var failed: Sets
    var killed: Sets
    var total: map<Target, nat>
    var lastTargetPolled: int
    var lastItemPolled: map<Target, int>
    var status: Statuses
    ghost var trace: seq<Event>

    ghost function Here(): Places
      reads this`scheduled, this`queued, this`running, this`passed, this`failed, this`killed
    {
      Places(scheduled, queued, running, passed, failed, killed)
    }

    ghost predicate Static()
      reads this`targets, this`total
    {
      && Graph(items) && maxParallel > 0 && maxPoll > 0 && launchers.Valid()
      && targets == TargetsOf(items)
      && Keyed(items, total.Keys)
      && forall t :: t in total ==> total[t] == |OfTarget(items, t)|
    }

    ghost predicate Cursors()
      reads this`targets, this`lastTargetPolled, this`lastItemPolled
    {
      && -1 <= lastTargetPolled < |targets|
      && Keyed(items, lastItemPolled.Keys)
      && forall t :: t in lastItemPolled ==> lastItemPolled[t] >= -1
    }

    /** What every step keeps. */
    ghost predicate Core(limbo: set<Job>)
      reads this, launchers`launched
    {
      && Static() && Cursors()
      && Recorded(items, trace, status, launchers.launched)
      && Placed(items, status, limbo, Here())
    }

    /** Between steps, moreover, every job whose dependencies are complete has left the waiting list. */
    ghost predicate Valid()
      reads this, launchers`launched
    {
      Core({}) && Ready(items, status) == {}
    }

    constructor (items: seq<Job>, launchers: Launchers, maxParallel: nat, maxPoll: nat)
      requires Graph(items) && maxParallel > 0 && maxPoll > 0
      requires launchers.Valid() && launchers.launched == []
      ensures Core({}) && status == map[] && trace == [] && lastTargetPolled == -1
      ensures this.items == items && this.launchers == launchers
      ensures this.maxParallel == maxParallel && this.maxPoll == maxPoll
    {
      hide Graph, TargetsOf, TotalLen, WaitBox, AllEmpty, NoneThere, OfTarget, Legal, Replay, Dispatched, Placed;
      this.items, this.launchers, this.maxParallel, this.maxPoll := items, launchers, maxParallel, maxPoll;
      scheduled, targets := map[], [];
      queued, running, passed, failed, killed := map[], map[], map[], map[], map[];
      total, lastTargetPolled, lastItemPolled, status, trace := map[], -1, map[], map[], [];
      new;
      NothingWaits();
      EmptyHistory(items);
      AddToScheduled([], items);
      assert [] + items == items;
      SetUp();
      PlacedAtStart(items, Here());
    }

    /** Gives every target its empty lists and sets, its total and its cursor. */
    method SetUp()
      requires targets == TargetsOf(items) && WaitBox(items, map[], scheduled)
      requires queued == map[] && running == map[] && passed == map[] && failed == map[] && killed == map[]
      requires total == map[] && lastItemPolled == map[]
      modifies this`queued, this`running, this`passed, this`failed, this`killed, this`total, this`lastItemPolled
      ensures AllEmpty(queued, targets) && AllEmpty(running, targets)
      ensures NoneThere(passed, targets) && NoneThere(failed, targets) && NoneThere(killed, targets)
      ensures Totals(items, total, targets) && Starting(lastItemPolled, targets)
    {
      hide TargetsOf, TotalLen, WaitBox, AllEmpty, NoneThere, OfTarget, Totals, Starting;
      assert targets[..0] == [];
      NoKeys(items);
      for i := 0 to |targets|
        invariant AllEmpty(queued, targets[..i]) && AllEmpty(running, targets[..i])
        invariant NoneThere(passed, targets[..i]) && NoneThere(failed, targets[..i]) && NoneThere(killed, targets[..i])
        invariant Totals(items, total, targets[..i]) && Starting(lastItemPolled, targets[..i])
      {
        var target := targets[i];
        EmptyMore(queued, passed, targets, i);
        EmptyMore(running, failed, targets, i);
        EmptyMore(running, killed, targets, i);
        TotalAtStart(items, scheduled, target);
        TotalsMore(items, total, lastItemPolled, targets, i);
        queued, running := queued[target := []], running[target := []];
        passed, failed, killed := passed[target := {}], failed[target := {}], killed[target := {}];
        var count := SumDictLists(scheduled[target]);
        total, lastItemPolled := total[target := count], lastItemPolled[target := -1];
      }
      assert targets[..|targets|] == targets;
    }

    // ---- waiting jobs and their successors ----

    /** Adds jobs to the waiting ones, each once; a target that is new comes last in the order. */
    method AddToScheduled(ghost before: seq<Job>, more: seq<Job>)
      requires WaitBox(before, map[], scheduled) && targets == TargetsOf(before)
      modifies this`scheduled, this`targets
      ensures WaitBox(before + more, map[], scheduled) && targets == TargetsOf(before + more)
    {
      hide TargetsOf, WaitBox, AddWaiting;
      assert before + more[..0] == before;
      for i := 0 to |more|
        invariant WaitBox(before + more[..i], map[], scheduled) && targets == TargetsOf(before + more[..i])
      {
        WaitBoxKeys(before + more[..i], scheduled);
        AddWaitingKeeps(before + more[..i], scheduled, more[i]);
        TargetsOfMore(before + more[..i], more[i]);
        assert before + more[..i + 1] == before + more[..i] + [more[i]];
        AddOne(more[i]);
      }
      assert more[..|more|] == more;
    }

    method AddOne(item: Job)
      modifies this`scheduled, this`targets
      ensures scheduled == AddWaiting(old(scheduled), item)
      ensures targets == if item.target in old(scheduled) then old(targets) else old(targets) + [item.target]
    {
      if item.target !in scheduled {
        scheduled := scheduled[item.target := map[]];
        targets := targets + [item.target];
      }
      var byCfg: map<Cfg, seq<Job>> := scheduled[item.target];
      ghost var m := byCfg;
      if item.cfg !in byCfg { byCfg := byCfg[item.cfg := []]; }
      if item !in byCfg[item.cfg] { byCfg := byCfg[item.cfg := byCfg[item.cfg] + [item]]; }
      assert byCfg == AddByCfg(m, item);
      scheduled := scheduled[item.target := byCfg];
    }

    method RemoveFromScheduled(item: Job)
      requires item.target in scheduled
      modifies this`scheduled
      ensures scheduled == Unwait(old(scheduled), item)
    {
      var byCfg: map<Cfg, seq<Job>> := scheduled[item.target];
      if item.cfg in byCfg {
        var list := RemoveFirst(byCfg[item.cfg], item);
        byCfg := if list == [] then byCfg - {item.cfg} else byCfg[item.cfg := list];
      }
      scheduled := scheduled[item.target := byCfg];
    }

    /** The target after the given one, or the first. */
    method GetNextTarget(curr: Option<Target>) returns (next: Option<Target>)
      requires targets != [] && Distinct(targets)
      requires curr.Some? ==> curr.value in targets
      ensures curr.None? ==> next == Some(targets[0])
      ensures curr.Some? && next.Some? ==> Follows(targets, curr.value, next.value)
      ensures curr.Some? && next.None? ==> curr.value == targets[|targets| - 1]
    {
      if curr.None? {
        return Some(targets[0]);
      }
      var pos, found := 1, false;
      while !found
        invariant 1 <= pos <= |targets|
        invariant !found ==> curr.value !in targets[..pos - 1]
        invariant found ==> pos >= 2 && targets[pos - 2] == curr.value
        decreases |targets| - pos, !found
      {
        found := targets[pos - 1] == curr.value;
        if pos == |targets| {
          assert targets == targets[..pos - 1] + [targets[pos - 1]];
          return None;
        }
        assert targets[..pos] == targets[..pos - 1] + [targets[pos - 1]];
        pos := pos + 1;
      }
      IndexOfDistinct(targets, pos - 2);
      IndexOfDistinct(targets, pos - 1);
      return Some(targets[pos - 1]);
    }

    /** Are all scheduled dependencies complete? */
    method OkToEnqueue(item: Job) returns (ok: bool)
      ensures ok == DepsDone(items, status, item)
    {
      for i := 0 to |item.deps|
        invariant forall d :: d in item.deps[..i] && d in items ==> Terminal(status, d)
      {
        var dep := item.deps[i];
        if dep !in items { continue; }
        if dep !in status { return false; }
        if status[dep] != P && status[dep] != F && status[dep] != K { return false; }
      }
      assert item.deps[..|item.deps|] == item.deps;
      return true;
    }

    /** Do the outcomes of the dependencies allow the job to run? */
    method OkToRun(item: Job) returns (ok: bool)
      requires DepsDone(items, status, item)
      ensures ok == MayRun(items, status, item)
    {
      for i := 0 to |item.deps|
        invariant forall d :: d in item.deps[..i] && d in items ==> d in status && (status[d] == P <==> item.needsAll)
      {
        var dep := item.deps[i];
        if dep !in items { continue; }
        var depStatus := status[dep];
        assert depStatus == P || depStatus == F || depStatus == K;
        if item.needsAll {
          if depStatus == F || depStatus == K { return false; }
        } else {
          if depStatus == P { return true; }
        }
      }
      assert item.deps[..|item.deps|] == item.deps;
      return item.needsAll;
    }

    ghost predicate Succeeds(item: Option<Job>, j: Job)
      reads this`targets
    {
      match item
      case None => targets != [] && j.target == targets[0]
      case Some(x) => x in j.deps
    }

    ghost function ReadySuccessors(item: Option<Job>): set<Job>
      reads this`targets, this`status
    {
      set j | j in Ready(items, status) && Succeeds(item, j)
    }

    /** Those of the waiting jobs, in some cfgs. */
    ghost function Candidates(item: Option<Job>, waiting: set<Job>, cfgs: set<Cfg>): set<Job>
      reads this`targets, this`status
    {
      set j | j in waiting && j.cfg in cfgs && Succeeds(item, j) && DepsDone(items, status, j)
    }

    /** The successors of item on one list of waiting jobs. */
    method SuccessorsAmong(item: Option<Job>, list: seq<Job>) returns (succ: seq<Job>)
      requires Distinct(list)
      requires item.None? ==> forall j :: j in list ==> Succeeds(item, j)
      requires item.Some? ==> forall j :: j in list ==> j.deps != []
      ensures Distinct(succ)
      ensures forall j :: j in succ <==> j in list && Succeeds(item, j) && DepsDone(items, status, j)
      ensures succ == Selected(items, status, item, list)
    {
      hide DepsDone, Distinct, Selected;
      NoneSelected(items, status, item);
      succ := [];
      assert list[..0] == [];
      for i := 0 to |list|
        invariant succ == Selected(items, status, item, list[..i])
      {
        var next := list[i];
        assert list[..i + 1] == list[..i] + [next];
        SelectedMore(items, status, item, list[..i], next);
        if item.Some? {
          assert next.deps != [];
          if item.value !in next.deps { continue; }
        }
        var ok := OkToEnqueue(next);
        if ok { succ := succ + [next]; }
      }
      assert list[..|list|] == list;
      SelectedSpec(items, status, item, list);
      assert forall j :: j in list ==> (Succeeds(item, j) <==> (item.Some? ==> item.value in j.deps));
    }

    /** The waiting jobs that may be queued now that item is complete (or at the start). No lookup fails. */
    method GetSuccessors(item: Option<Job>, ghost limbo: set<Job>) returns (succ: seq<Job>)
      requires Core(limbo)
      requires item.Some? ==> JustCompleted(items, status, item.value)
      ensures Holds(succ, ReadySuccessors(item))
      ensures item.Some? ==> succ == Successors(items, items, status, item.value)
    {
      hide Core, JustCompleted, Ready, DepsDone, Unstarted, HoldsByCfg, Holds, Candidates, ReadySuccessors, Follows,
           Gathered, Successors, Succeeds;
      ItemTarget(item, limbo);
      var target, cfgs;
      if item.None? {
        target := GetNextTarget(None);
        WaitingAt(item, target.value, limbo);
        cfgs := scheduled[target.value].Keys;
      } else {
        target := GetNextTarget(Some(item.value.target));
        cfgs := {item.value.cfg};
      }
      if target.None? {
        NothingFollows(item.value, limbo);
        return [];
      }
      var t := target.value;
      WaitingAt(item, t, limbo);
      ghost var done;
      succ, done := SuccessorsIn(item, t, cfgs, Unstarted(items, status, t));
      if item.Some? { InOrderOfItems(item.value, t, done, limbo); }
    }

    lemma ItemTarget(item: Option<Job>, limbo: set<Job>)
      requires Core(limbo) && (item.Some? ==> JustCompleted(items, status, item.value))
      ensures targets != [] && Distinct(targets) && (item.Some? ==> item.value.target in targets)
    {
      hide Graph, TargetsOf;
      GraphTargets(items);
    }

    /** Where the successors of item wait, so that every lookup succeeds. */
    lemma WaitingAt(item: Option<Job>, t: Target, limbo: set<Job>)
      requires Core(limbo) && (item.Some? ==> JustCompleted(items, status, item.value))
      requires targets != []
      requires if item.None? then t == targets[0] else Follows(targets, item.value.target, t)
      ensures t in scheduled && HoldsByCfg(scheduled[t], Unstarted(items, status, t))
      ensures item.None? ==> forall j :: j in Unstarted(items, status, t) ==> Succeeds(item, j)
      ensures item.Some? ==> item.value.cfg in scheduled[t]
      ensures item.Some? ==> forall j :: j in Unstarted(items, status, t) ==> j.deps != []
      ensures item.Some? ==> forall y :: y in items && item.value in y.deps ==> y.target == t && y.cfg == item.value.cfg
      ensures var cfgs := if item.None? then scheduled[t].Keys else {item.value.cfg};
              Candidates(item, Unstarted(items, status, t), cfgs) == ReadySuccessors(item)
    {
      hide Graph, Recorded, TargetsOf, ListBox, SetBox, Index, InOrder, DepsDone;
      if item.Some? { SuccessorsNext(items, status, item.value, t); }
    }

    lemma NothingFollows(x: Job, limbo: set<Job>)
      requires Core(limbo) && JustCompleted(items, status, x) && targets != []
      requires x.target == targets[|targets| - 1]
      ensures Holds([], ReadySuccessors(Some(x)))
      ensures Successors(items, items, status, x) == []
    {
      hide Graph, Recorded, TargetsOf, Placed, Successors;
      LastHasNoSuccessors(items, x);
      NoSuccessors(items, items, status, x);
    }

    lemma InOrderOfItems(x: Job, t: Target, done: seq<Cfg>, limbo: set<Job>)
      requires Core(limbo) && t in scheduled && x.cfg in scheduled[t]
      requires |done| == 1 && forall c :: c in done ==> c == x.cfg
      requires forall y :: y in items && x in y.deps ==> y.target == t && y.cfg == x.cfg
      ensures Gathered(items, status, Some(x), scheduled[t], done) == Successors(items, items, status, x)
    {
      hide Static, Cursors, Recorded, ListBox, SetBox, HoldsByCfg, Gathered, Selected, Successors, WaitingList;
      GatheredOne(items, status, Some(x), scheduled[t], done, x.cfg);
      SelectedIsSuccessors(items, items, status, x, t, x.cfg);
    }

    /** The successors of item among the waiting jobs of one target and some of its cfgs, in any order of cfgs. */
    method SuccessorsIn(item: Option<Job>, t: Target, all: set<Cfg>, ghost waiting: set<Job>)
      returns (succ: seq<Job>, ghost done: seq<Cfg>)
      requires t in scheduled && HoldsByCfg(scheduled[t], waiting) && all <= scheduled[t].Keys
      requires item.None? ==> forall j :: j in waiting ==> Succeeds(item, j)
      requires item.Some? ==> forall j :: j in waiting ==> j.deps != []
      ensures Holds(succ, Candidates(item, waiting, all))
      ensures |done| == |all| && (forall c :: c in done ==> c in all)
      ensures succ == Gathered(items, status, item, scheduled[t], done)
    {
      hide DepsDone, Succeeds, Gathered, Selected, HoldsByCfg, Holds, Candidates;
      var cfgs := all;
      succ, done := [], [];
      NoneGathered(items, status, item, scheduled[t]);
      NoCandidates(item, waiting);
      while cfgs != {}
        invariant cfgs <= all
        invariant |done| + |cfgs| == |all| && forall c :: c in done ==> c in all
        invariant succ == Gathered(items, status, item, scheduled[t], done)
        invariant Holds(succ, Candidates(item, waiting, all - cfgs))
        decreases |cfgs|
      {
        var cfg :| cfg in cfgs;
        OneCfg(item, scheduled[t], waiting, cfg);
        var more := SuccessorsAmong(item, scheduled[t][cfg]);
        CandidatesMore(item, scheduled[t], waiting, all - cfgs, cfg, succ, more);
        GatheredMore(items, status, item, scheduled[t], done, cfg);
        succ, done := succ + more, done + [cfg];
        assert all - (cfgs - {cfg}) == all - cfgs + {cfg};
        cfgs := cfgs - {cfg};
      }
      assert all - {} == all;
    }

    lemma NoCandidates(item: Option<Job>, waiting: set<Job>)
      ensures forall a: set<Cfg> :: Holds([], Candidates(item, waiting, a - a))
    {
    }

    lemma OneCfg(item: Option<Job>, m: map<Cfg, seq<Job>>, waiting: set<Job>, cfg: Cfg)
      requires HoldsByCfg(m, waiting) && cfg in m
      requires item.None? ==> forall j :: j in waiting ==> Succeeds(item, j)
      requires item.Some? ==> forall j :: j in waiting ==> j.deps != []
      ensures Distinct(m[cfg])
      ensures item.None? ==> forall j :: j in m[cfg] ==> Succeeds(item, j)
      ensures item.Some? ==> forall j :: j in m[cfg] ==> j.deps != []
    {
    }

    lemma CandidatesMore(item: Option<Job>, m: map<Cfg, seq<Job>>, waiting: set<Job>, done: set<Cfg>, cfg: Cfg,
                         succ: seq<Job>, more: seq<Job>)
      requires HoldsByCfg(m, waiting) && cfg in m && cfg !in done
      requires Holds(succ, Candidates(item, waiting, done)) && Distinct(more)
      requires forall j :: j in more <==> j in m[cfg] && Succeeds(item, j) && DepsDone(items, status, j)
      ensures Holds(succ + more, Candidates(item, waiting, done + {cfg}))
    {
      hide Succeeds, DepsDone;
      DistinctConcat(succ, more);
    }

    /** Moves every waiting job that is ready to its queue. */
    method EnqueueSuccessors(item: Option<Job>, ghost limbo: set<Job>)
      requires Core(limbo)
      requires item.Some? ==> JustCompleted(items, status, item.value)
      requires forall j :: j in Ready(items, status) ==> Succeeds(item, j)
      modifies this`status, this`queued, this`scheduled, this`trace
      ensures Core(limbo) && Ready(items, status) == {}
      ensures old(trace) <= trace
      ensures status.Keys == old(status).Keys + old(Ready(items, status))
      ensures forall j :: j in status ==> status[j] == if j in old(status) then old(status[j]) else Q
      ensures Grown(old(queued), queued, item)
      ensures item.Some? ==>
                PoolNow() == QueueAll(old(PoolNow()), Successors(items, items, old(status), item.value))
    {
      hide Core, Ready, JustCompleted, Succeeds, Grown, Successors, QueueAll, DepsDone, Fills;
      var succ := GetSuccessors(item, limbo);
      assert Holds(succ, Ready(items, status));
      SuccessorsFill(item, limbo);
      GrownNone(item);
      assert succ[..0] == [];
      NoneQueuedYet(PoolNow());
      for i := 0 to |succ|
        invariant Core(limbo) && Holds(succ[i..], Ready(items, status))
        invariant old(trace) <= trace
        invariant Grown(old(queued), queued, item)
        invariant PoolNow() == QueueAll(old(PoolNow()), succ[..i])
      {
        QueueAllMore(old(PoolNow()), succ[..i], succ[i]);
        OneTaken(succ, i, Ready(items, status));
        ghost var mid := queued;
        Enqueue(succ[i], limbo);
        GrownOn(old(queued), mid, succ[i], item);
      }
      assert succ[..|succ|] == succ && succ[|succ|..] == [];
      QueueAllStatus(old(PoolNow()), succ);
      ReadyUnstarted(items, old(status));
    }

    ghost function PoolNow(): Pool
      reads this`status, this`queued
    {
      Pool(status, queued)
    }

    ghost predicate Fills(item: Option<Job>, t: Target)
      reads this`targets
    {
      item.Some? ==> Follows(targets, item.value.target, t)
    }

    /** No queue has lost a job, and only queues of the next target have gained some. */
    ghost predicate Grown(was: Lists, now: Lists, item: Option<Job>)
      reads this`targets
    {
      forall t :: t in was ==> t in now && was[t] <= now[t] && (Fills(item, t) || now[t] == was[t])
    }

    lemma OneTaken(l: seq<Job>, i: nat, js: set<Job>)
      requires i < |l| && Holds(l[i..], js)
      ensures l[i] in js && Holds(l[i + 1..], js - {l[i]})
      ensures l[..i + 1] == l[..i] + [l[i]]
    {
      assert l[i..][0] == l[i] && l[i..][1..] == l[i + 1..];
      HoldsRemoveAt(l[i..], 0, js);
      assert RemoveAt(l[i..], 0) == l[i + 1..];
    }

    lemma SuccessorsFill(item: Option<Job>, limbo: set<Job>)
      requires Core(limbo) && (item.Some? ==> JustCompleted(items, status, item.value))
      ensures forall j :: j in Ready(items, status) && Succeeds(item, j) ==> Fills(item, j.target)
    {
      hide TargetsOf, Cursors, Placed, Recorded;
    }

    lemma GrownNone(item: Option<Job>)
      ensures Grown(queued, queued, item)
    {
    }

    lemma GrownOn(was: Lists, mid: Lists, next: Job, item: Option<Job>)
      requires Grown(was, mid, item) && Fills(item, next.target)
      requires next.target in mid && queued == Append(mid, next)
      ensures Grown(was, queued, item)
    {
    }

    /** Gives a job a status. */
    method Record(item: Job, st: Status)
      modifies this`status, this`trace
      ensures status == old(status)[item := st] && trace == old(trace) + [Event(item, st)]
    {
      status := status[item := st];
      trace := trace + [Event(item, st)];
    }

    /** What completing a running job comes to. */
    lemma Finishes(item: Job, at: nat, st: Status)
      requires Valid() && Final(st) && item.target in targets && item.target in running
      requires at < |running[item.target]| && running[item.target][at] == item
      ensures item in status && status[item] == D && HasKey(Here(), item.target)
      ensures Placed(items, status[item := st], {}, Finished(Here(), item, at, st))
      ensures Recorded(items, trace + [Event(item, st)], status[item := st], launchers.launched)
      ensures JustCompleted(items, status[item := st], item)
      ensures forall j :: j in Ready(items, status[item := st]) ==> item in j.deps
    {
      hide Static, Cursors, Recorded, Placed, Ready, JustCompleted, Finished;
      HasKeys({});
      Finish(items, status, {}, Here(), item, at, st);
      CompletesNow(items, trace, status, launchers.launched, item, st);
      RecordOne(items, trace, status, launchers.launched, Event(item, st));
      ReadyOnCompletion(items, status, item, st);
    }

    method Enqueue(next: Job, ghost limbo: set<Job>)
      requires Core(limbo) && next in Ready(items, status)
      modifies this`status, this`queued, this`scheduled, this`trace
      ensures Core(limbo) && Ready(items, status) == old(Ready(items, status)) - {next}
      ensures next !in old(status) && status == old(status)[next := Q]
      ensures trace == old(trace) + [Event(next, Q)]
      ensures HasKey(old(Here()), next.target) && Here() == Queued(old(Here()), next)
      ensures next.target in old(queued) && queued == Append(old(queued), next)
    {
      hide Static, Cursors, Recorded, DepsDone, ListBox, SetBox, WaitBox, Placed, Queued;
      Queue(items, status, limbo, Here(), next);
      RecordOne(items, trace, status, launchers.launched, Event(next, Q));
      ReadyAfterActive(items, status, next, Q);
      assert next !in status;
      assert next !in queued[next.target];
      Record(next, Q);
      MoveToQueued(next);
    }

    method MoveToQueued(next: Job)
      requires HasKey(Here(), next.target)
      modifies this`queued, this`scheduled
      ensures Here() == Queued(old(Here()), next)
      ensures next.target in old(queued) && queued == Append(old(queued), next)
    {
      queued := queued[next.target := queued[next.target] + [next]];
      RemoveFromScheduled(next);
    }

    // ---- cancelling and killing ----

    /** Cancels a waiting or queued job and, if asked, everything that becomes ready in consequence. */
    method CancelItem(item: Job, cancelSuccessors: bool, ghost limbo: set<Job>)
      requires Core(limbo) && item in items
      requires if item in status then status[item] == Q else DepsDone(items, status, item)
      requires cancelSuccessors ==> Ready(items, status) <= {item}
      modifies this`status, this`queued, this`scheduled, this`killed, this`trace
      ensures Core(limbo - {item})
      ensures old(trace) + [Event(item, K)] <= trace
      ensures !cancelSuccessors ==> status == old(status)[item := K] && trace == old(trace) + [Event(item, K)]
      ensures !cancelSuccessors ==> JustCompleted(items, status, item)
      ensures cancelSuccessors ==> Cascade(items, old(status)[item := K], status)
      ensures item.target in old(queued)
      ensures queued == if item !in old(queued[item.target]) then old(queued) else
                SetList(old(queued), item.target, RemoveFirst(old(queued[item.target]), item))
      decreases if cancelSuccessors then 2 else 0
    {
      hide Static, Cursors, Recorded, DepsDone, ListBox, SetBox, WaitBox, Placed, Ready, JustCompleted;
      ghost var s := status;
      CancelOne(item, limbo);
      if cancelSuccessors {
        ReadyOnCompletion(items, s, item, K);
        CancelSuccessors(item, limbo - {item});
      }
    }

    /** The part of CancelItem that moves the job itself. */
    method CancelOne(item: Job, ghost limbo: set<Job>)
      requires Core(limbo) && item in items
      requires if item in status then status[item] == Q else DepsDone(items, status, item)
      modifies this`status, this`queued, this`scheduled, this`killed, this`trace
      ensures Core(limbo - {item})
      ensures trace == old(trace) + [Event(item, K)] && status == old(status)[item := K]
      ensures JustCompleted(items, status, item)
      ensures HasKey(old(Here()), item.target) && Here() == Cancelled(old(Here()), item)
    {
      hide Static, Cursors, Recorded, DepsDone, Placed, Ready, JustCompleted, Cancelled;
      ghost var here := Here();
      CancelAnywhere(items, status, limbo, here, item);
      CompletesNow(items, trace, status, launchers.launched, item, K);
      RecordOne(items, trace, status, launchers.launched, Event(item, K));
      Record(item, K);
      MoveToKilled(item);
    }

    method MoveToKilled(item: Job)
      requires HasKey(Here(), item.target)
      modifies this`queued, this`scheduled, this`killed
      ensures Here() == Cancelled(old(Here()), item)
    {
      killed := killed[item.target := killed[item.target] + {item}];
      if item in queued[item.target] {
        queued := queued[item.target := RemoveFirst(queued[item.target], item)];
      } else {
        RemoveFromScheduled(item);
      }
    }

    /** Cancels everything that becomes ready because item is complete, in the order of a stack. */
    method CancelSuccessors(item: Job, ghost limbo: set<Job>)
      requires Core(limbo) && JustCompleted(items, status, item)
      requires forall j :: j in Ready(items, status) ==> item in j.deps
      modifies this`status, this`queued, this`scheduled, this`killed, this`trace
      ensures Core(limbo) && Cascade(items, old(status), status)
      ensures old(trace) <= trace && queued == old(queued)
      decreases 1
    {
      hide Static, Cursors, Recorded, DepsDone, ListBox, SetBox, WaitBox, Placed, Ready, JustCompleted;
      var work := GetSuccessors(Some(item), limbo);
      assert Holds(work, Ready(items, status));
      assert CancelledSome(items, status, status);
      while work != []
        invariant Core(limbo) && Holds(work, Ready(items, status))
        invariant CancelledSome(items, old(status), status)
        invariant old(trace) <= trace && queued == old(queued)
        decreases Work(items, status)
      {
        ghost var s := status;
        var next := work[|work| - 1];
        assert work == work[..|work| - 1] + [next];
        work := work[..|work| - 1];
        ReadyWaits(items, status, limbo, Here(), next);
        CancelItem(next, false, limbo);
        var more := GetSuccessors(Some(next), limbo);
        CancelKeepsWorkList(items, s, work, next, more);
        CancelOneMore(items, old(status), s, next);
        WorkFalls(items, s, Event(next, K));
        work := work + more;
      }
    }

    /** Kills a running job and cancels everything that becomes ready in consequence. */
    method KillItem(item: Job, ghost limbo: set<Job>)
      requires Core(limbo) && item in items && item in status && status[item] == D && Ready(items, status) == {}
      modifies this`status, this`queued, this`scheduled, this`running, this`killed, this`trace, launchers`killed
      ensures Core(limbo) && Cascade(items, old(status)[item := K], status)
      ensures old(trace) + [Event(item, K)] <= trace && queued == old(queued)
      ensures item.target in old(running)
      ensures running == SetList(old(running), item.target, RemoveFirst(old(running[item.target]), item))
      ensures launchers.killed == old(launchers.killed) + [item]
    {
      hide Static, Cursors, Recorded, Placed, Ready, JustCompleted, KilledRunning;
      Kills(item, limbo);
      launchers.Kill(item);
      Record(item, K);
      MoveRunningToKilled(item);
      CancelSuccessors(item, limbo);
    }

    /** What killing a running job comes to. */
    lemma Kills(item: Job, limbo: set<Job>)
      requires Core(limbo) && item in items && item in status && status[item] == D && Ready(items, status) == {}
      ensures HasKey(Here(), item.target)
      ensures Placed(items, status[item := K], limbo, KilledRunning(Here(), item))
      ensures Recorded(items, trace + [Event(item, K)], status[item := K], launchers.launched)
      ensures JustCompleted(items, status[item := K], item)
      ensures forall j :: j in Ready(items, status[item := K]) ==> item in j.deps
    {
      hide Static, Cursors, Recorded, Placed, Ready, JustCompleted, KilledRunning;
      KillRunning(items, status, limbo, Here(), item);
      CompletesNow(items, trace, status, launchers.launched, item, K);
      RecordOne(items, trace, status, launchers.launched, Event(item, K));
      ReadyOnCompletion(items, status, item, K);
    }

    method MoveRunningToKilled(item: Job)
      requires HasKey(Here(), item.target)
      modifies this`running, this`killed
      ensures Here() == KilledRunning(old(Here()), item)
      ensures item.target in old(running)
      ensures running == SetList(old(running), item.target, RemoveFirst(old(running[item.target]), item))
    {
      killed := killed[item.target := killed[item.target] + {item}];
      running := running[item.target := RemoveFirst(running[item.target], item)];
    }

    /** Cancels whatever waits or is queued and kills whatever runs: everything is complete afterwards. */
    method Kill()
      requires Valid()
      modifies this`status, this`queued, this`scheduled, this`running, this`killed, this`trace, launchers`killed
      ensures Valid() && AllTerminal(items, status) && KilledOff(old(status), status)
      ensures old(trace) <= trace
      ensures launchers.killed == old(launchers.killed) + Flat(targets, old(running))
    {
      hide Core, Ready, AllTerminal, KilledOff;
      CancelQueues();
      ghost var mid := status;
      KillRunningJobs();
      KilledOffOn(old(status), mid, status);
      AllDone();
    }

    lemma HasKeys(limbo: set<Job>)
      requires Core(limbo)
      ensures targets != [] && Distinct(targets) && targets == TargetsOf(items) && launchers.Valid()
      ensures forall t :: t in targets ==> HasKey(Here(), t) && t in lastItemPolled && lastItemPolled[t] >= -1
    {
      hide Placed;
      PlacedKeys(items, status, limbo, Here());
      GraphTargets(items);
    }

    lemma AllDone()
      requires Valid()
      requires forall t :: t in targets ==> t in queued && queued[t] == []
      requires forall t :: t in targets ==> t in running && running[t] == []
      ensures AllTerminal(items, status)
    {
      hide Graph, Placed, Ready;
      AllKilled(items, status, Here());
    }

    method CancelQueues()
      requires Valid()
      modifies this`status, this`queued, this`scheduled, this`killed, this`trace
      ensures Valid() && forall t :: t in targets ==> t in queued && queued[t] == []
      ensures old(trace) <= trace && KilledOff(old(status), status)
    {
      hide Static, Cursors, Recorded, Placed, Ready, KilledOff;
      KilledOffNone(status);
      for i := 0 to |targets|
        invariant Valid() && old(trace) <= trace && KilledOff(old(status), status)
        invariant forall t :: t in targets[..i] ==> t in queued && queued[t] == []
      {
        ghost var mid := status;
        CancelQueue(targets[i]);
        KilledOffOn(old(status), mid, status);
        assert targets[..i + 1] == targets[..i] + [targets[i]];
      }
      assert targets[..|targets|] == targets;
    }

    method CancelQueue(target: Target)
      requires Valid() && target in targets
      modifies this`status, this`queued, this`scheduled, this`killed, this`trace
      ensures Valid() && old(trace) <= trace && KilledOff(old(status), status)
      ensures target in old(queued) && queued == old(queued)[target := []]
    {
      hide Core, Ready, KilledOff;
      HasKeys({});
      assert HasKey(Here(), target);
      KilledOffNone(status);
      var copy := queued[target];
      for i := 0 to |copy|
        invariant Valid() && old(trace) <= trace && KilledOff(old(status), status)
        invariant target in old(queued) && queued == old(queued)[target := copy[i..]]
      {
        ghost var mid := status;
        CancelFirst(target, copy[i]);
        KilledOffOn(old(status), mid, status);
      }
      assert copy[|copy|..] == [];
    }

    /** Cancels the first queued job of a target and what becomes ready in consequence. */
    method CancelFirst(target: Target, item: Job)
      requires Valid() && target in queued && queued[target] != [] && item == queued[target][0]
      modifies this`status, this`queued, this`scheduled, this`killed, this`trace
      ensures Valid() && old(trace) <= trace && KilledOff(old(status), status)
      ensures target in old(queued) && queued == old(queued)[target := old(queued[target])[1..]]
    {
      hide Static, Cursors, Recorded, Placed, Ready, KilledOff, CancelledSome;
      QueuedJob(items, status, {}, Here(), target, 0);
      CancelItem(item, true, {});
      CascadeKillsOff(items, old(status), item, status);
      assert {} - {item} == {};
    }

    method KillRunningJobs()
      requires Valid()
      modifies this`status, this`queued, this`scheduled, this`running, this`killed, this`trace, launchers`killed
      ensures Valid() && forall t :: t in targets ==> t in running && running[t] == []
      ensures old(trace) <= trace && queued == old(queued) && KilledOff(old(status), status)
      ensures launchers.killed == old(launchers.killed) + Flat(targets, old(running))
    {
      hide Core, Ready, Cleared, Flat, Distinct, KilledOff;
      HasKeys({});
      KilledOffNone(status);
      ghost var was := running;
      NoneCleared(was);
      assert targets[..0] == [];
      assert forall t :: t in targets ==> HasKey(Here(), t) && t in was;
      for i := 0 to |targets|
        invariant Valid() && old(trace) <= trace && queued == old(queued) && KilledOff(old(status), status)
        invariant running == Cleared(was, targets[..i])
        invariant launchers.killed == old(launchers.killed) + Flat(targets[..i], was)
      {
        FlatMore(targets, was, i);
        ClearedMore(was, targets, i);
        ghost var mid := status;
        KillRunningOf(targets[i]);
        KilledOffOn(old(status), mid, status);
      }
      assert targets[..|targets|] == targets;
      AllCleared(was, targets);
    }

    method KillRunningOf(target: Target)
      requires Valid() && target in targets
      modifies this`status, this`queued, this`scheduled, this`running, this`killed, this`trace, launchers`killed
      ensures Valid() && old(trace) <= trace && queued == old(queued) && KilledOff(old(status), status)
      ensures target in old(running) && running == old(running)[target := []]
      ensures launchers.killed == old(launchers.killed) + old(running)[target]
    {
      hide Core, Ready, KilledOff;
      HasKeys({});
      assert HasKey(Here(), target);
      KilledOffNone(status);
      var copy := running[target];
      for i := 0 to |copy|
        invariant Valid() && old(trace) <= trace && queued == old(queued) && KilledOff(old(status), status)
        invariant target in old(running) && running == old(running)[target := copy[i..]]
        invariant launchers.killed == old(launchers.killed) + copy[..i]
      {
        ghost var mid := status;
        KillFirst(target, copy[i]);
        KilledOffOn(old(status), mid, status);
        assert copy[..i + 1] == copy[..i] + [copy[i]];
      }
      assert copy[..|copy|] == copy && copy[|copy|..] == [];
    }

    /** Kills the first running job of a target. */
    method KillFirst(target: Target, item: Job)
      requires Valid() && target in running && running[target] != [] && item == running[target][0]
      modifies this`status, this`queued, this`scheduled, this`running, this`killed, this`trace, launchers`killed
      ensures Valid() && old(trace) <= trace && queued == old(queued) && KilledOff(old(status), status)
      ensures target in old(running) && running == old(running)[target := old(running[target])[1..]]
      ensures launchers.killed == old(launchers.killed) + [item]
    {
      hide Static, Cursors, Recorded, Placed, Ready, KilledOff, CancelledSome;
      RunningJob(items, status, {}, Here(), target, 0);
      KillItem(item, {});
      CascadeKillsOff(items, old(status), item, status);
    }

    // ---- polling ----

    /** Steps the jobs can still take plus D answers still to come. */
    ghost function Potential(): nat
      reads this`status, launchers, launchers`pending
    {
      Work(items, status) + Pending(items, launchers.pending)
    }

    /** Polls the next running job of a target; if it is complete, moves it and queues its successors. */
    method PollOne(target: Target) returns (st: Status)
      requires Valid() && target in targets && target in running && running[target] != []
      modifies this`status, this`queued, this`scheduled, this`running, this`passed, this`failed, this`killed
      modifies this`lastItemPolled, this`trace, launchers`pending, launchers`polled
      ensures Valid() && Potential() < old(Potential())
      ensures target in old(lastItemPolled) && old(lastItemPolled[target]) >= -1
      ensures var list, at := old(running[target]), NextIndex(|old(running[target])|, old(lastItemPolled[target]));
              launchers.polled == old(launchers.polled) + [list[at]] && PolledOne(target, at, list[at], st)
      ensures Visited(launchers.verdict, old(Visit()), Visit())
    {
      hide Core, Ready, Polls, Work, Pending, NextIndex, Completed, Answered;
      HasKeys({});
      PollsNothing(status, launchers.verdict);
      var item, at := NextToPoll(target);
      st := launchers.Poll(item);
      if st == D {
        PendingFalls(items, old(launchers.pending), item);
      } else {
        Complete(item, at, st);
        PollsOne(old(status), item, st, status, launchers.verdict);
      }
      AnsweredOne(old(status), old(launchers.pending), old(launchers.polled), item, status, launchers.pending);
    }

    /** Advances the cursor of a target. */
    method NextToPoll(target: Target) returns (item: Job, at: nat)
      requires Valid() && target in targets && target in running && running[target] != []
      modifies this`lastItemPolled
      ensures Valid() && target in old(lastItemPolled) && old(lastItemPolled[target]) >= -1
      ensures at == NextIndex(|running[target]|, old(lastItemPolled[target])) && item == running[target][at]
      ensures lastItemPolled == old(lastItemPolled)[target := at]
      ensures item in items && item in status && status[item] == D && item.target == target
    {
      hide Static, Cursors, Recorded, Placed, Ready, NextIndex;
      HasKeys({});
      var next := GetNextItem(running[target], lastItemPolled[target]);
      item, at := next.value.0, next.value.1;
      RunningJob(items, status, {}, Here(), target, at);
      MoveCursor(target, at);
    }

    /** What polling did to the scheduler: nothing on D; otherwise the job left the list, and the cursor steps back. */
    twostate predicate PolledOne(target: Target, at: nat, item: Job, st: Status)
      requires target in old(running) && at < |old(running[target])|
      reads this
    {
      if st == D then
        && running == old(running) && trace == old(trace) && status == old(status)
        && lastItemPolled == old(lastItemPolled)[target := at]
      else
        && item in old(status) && old(status[item]) == D && item in status && status[item] == st
        && running == old(running)[target := RemoveAt(old(running[target]), at)]
        && old(trace) + [Event(item, st)] <= trace
        && lastItemPolled == old(lastItemPolled)[target := at - 1]
    }

    /** Moves a running job to its final place and queues what becomes ready. */
    method Complete(item: Job, at: nat, st: Status)
      requires Valid() && Final(st) && item.target in targets && item.target in running
      requires at < |running[item.target]| && running[item.target][at] == item
      modifies this`status, this`queued, this`scheduled, this`running, this`passed, this`failed, this`killed
      modifies this`lastItemPolled, this`trace
      ensures Valid() && Work(items, status) < old(Work(items, status))
      ensures old(trace) + [Event(item, st)] <= trace
      ensures item in old(status) && old(status[item]) == D && item in status && status[item] == st
      ensures forall j :: j in old(status) && j != item ==> j in status && status[j] == old(status[j])
      ensures forall j :: j in status && j !in old(status) ==> status[j] == Q
      ensures PoolNow() == Completed(items, old(PoolNow()), item, st)
      ensures item.target in old(running) && at < |old(running[item.target])|
      ensures running == old(running)[item.target := RemoveAt(old(running[item.target]), at)]
      ensures lastItemPolled == old(lastItemPolled)[item.target := at - 1]
    {
      hide Static, Cursors, Placed, Recorded, Ready, JustCompleted;
      Finalize(item, at, st);
      EnqueueSuccessors(Some(item), {});
      WorkSpent(old(trace), old(status), old(launchers.launched), {});
    }

    lemma WorkSpent(before: seq<Event>, s: Statuses, ds: seq<Job>, limbo: set<Job>)
      requires Core(limbo) && Recorded(items, before, s, ds) && before <= trace
      ensures Work(items, status) + |trace| - |before| <= Work(items, s)
    {
      hide Static, Cursors, Placed, Recorded;
      WorkUsed(items, before, s, ds, trace, status, launchers.launched);
    }

    method Finalize(item: Job, at: nat, st: Status)
      requires Valid() && Final(st) && item.target in targets && item.target in running
      requires at < |running[item.target]| && running[item.target][at] == item
      modifies this`status, this`running, this`passed, this`failed, this`killed, this`lastItemPolled, this`trace
      ensures Core({}) && JustCompleted(items, status, item)
      ensures forall j :: j in Ready(items, status) ==> item in j.deps
      ensures item in old(status) && old(status[item]) == D
      ensures status == old(status)[item := st] && trace == old(trace) + [Event(item, st)]
      ensures item.target in old(running) && at < |old(running[item.target])|
      ensures running == old(running)[item.target := RemoveAt(old(running[item.target]), at)]
      ensures lastItemPolled == old(lastItemPolled)[item.target := at - 1]
    {
      hide Static, Cursors, Recorded, Placed, Ready, JustCompleted, Finished;
      Finishes(item, at, st);
      MoveCursor(item.target, at as int - 1);
      MoveToFinal(item, at, st);
      Record(item, st);
    }

    method MoveToFinal(item: Job, at: nat, st: Status)
      requires HasKey(Here(), item.target) && at < |running[item.target]| && Final(st)
      modifies this`running, this`passed, this`failed, this`killed
      ensures Here() == Finished(old(Here()), item, at, st)
      ensures item.target in old(running) && at < |old(running[item.target])|
      ensures running == old(running)[item.target := RemoveAt(old(running[item.target]), at)]
    {
      var target := item.target;
      if st == P {
        passed := passed[target := passed[target] + {item}];
      } else if st == F {
        failed := failed[target := failed[target] + {item}];
      } else {
        killed := killed[target := killed[target] + {item}];
      }
      running := running[target := RemoveAt(running[target], at)];
    }

    method MoveCursor(target: Target, at: int)
      requires Static() && Cursors() && target in targets && at >= -1
      modifies this`lastItemPolled
      ensures Cursors() && lastItemPolled == old(lastItemPolled)[target := at]
    {
      hide TargetsOf;
      lastItemPolled := lastItemPolled[target := at];
    }

    /** Polls jobs of one target until none is running there or the polls are used up. */
    method PollTarget(target: Target, polls: nat) returns (left: nat, changed: bool)
      requires Valid() && target in targets
      modifies this`status, this`queued, this`scheduled, this`running, this`passed, this`failed, this`killed
      modifies this`lastItemPolled, this`trace, launchers`pending, launchers`polled
      ensures Valid() && TargetPolled(launchers.verdict, target, polls, left, changed, old(Visit()), Visit())
      // While nothing completes, the polls go round the list.
      ensures target in old(running) && target in old(lastItemPolled) && target in lastItemPolled && left <= polls
      ensures trace == old(trace) ==> running == old(running) && WentRound(old(running[target]), polls - left,
        old(lastItemPolled[target]), lastItemPolled[target], old(launchers.polled), launchers.polled)
    {
      hide Core, Ready, NextIndex, Visited, Turns, Potential, WentRound, Polling, TargetPolled;
      HasKeys({});
      assert HasKey(Here(), target);
      ghost var was := Visit();
      left, changed := polls, false;
      BeginPolling(target, polls);
      while running[target] != [] && left > 0
        invariant target in running && Polling(target, was, polls, left, changed)
        decreases left
      {
        changed := PollNext(target, was, polls, left, changed);
        left := left - 1;
      }
      EndPolling(target, was, polls, left, changed);
    }

    /** What holds while a target is polled, since the moment this began. */
    ghost predicate Polling(target: Target, was: Visiting, polls: nat, left: nat, changed: bool)
      reads this, launchers
    {
      && Valid() && target in targets && TargetsVisit(launchers.verdict, target, polls, left, changed, was, Visit())
    }

    lemma BeginPolling(target: Target, polls: nat)
      requires Valid() && target in targets
      ensures Polling(target, Visit(), polls, polls, false)
    {
      hide Core, Ready, Visited, WentRound, Turns, Potential;
      HasKeys({});
      assert HasKey(Here(), target);
      NoneVisited(launchers.verdict, Visit());
      WentNowhere(running[target], lastItemPolled[target], launchers.polled);
      NoTurns(running[target], lastItemPolled[target], launchers.polled);
    }

    lemma EndPolling(target: Target, was: Visiting, polls: nat, left: nat, changed: bool)
      requires Polling(target, was, polls, left, changed)
      requires target in running && (left == 0 || running[target] == [])
      ensures Valid() && TargetPolled(launchers.verdict, target, polls, left, changed, was, Visit())
      ensures target in was.running && target in was.marks && target in lastItemPolled && left <= polls
      ensures was.marks[target] >= -1
      ensures trace == was.trace ==> running == was.running && WentRound(was.running[target], polls - left,
        was.marks[target], lastItemPolled[target], was.polled, launchers.polled)
    {
      hide Core, Ready, Visited, WentRound, Turns, Potential;
    }

    method PollNext(target: Target, ghost was: Visiting, ghost polls: nat, ghost left: nat, changed: bool)
      returns (more: bool)
      requires target in running && Polling(target, was, polls, left, changed) && running[target] != [] && left > 0
      modifies this`status, this`queued, this`scheduled, this`running, this`passed, this`failed, this`killed
      modifies this`lastItemPolled, this`trace, launchers`pending, launchers`polled
      ensures target in running && Polling(target, was, polls, left - 1, more)
    {
      hide Core, Ready, NextIndex, TargetsVisit, Potential, RemoveAt;
      HasKeys({});
      ghost var mid := Visit();
      var st := PollOne(target);
      VisitGoesOn(launchers.verdict, target, polls, left, changed, was, mid, Visit(), st);
      more := changed || st != D;
    }

    /** Makes exactly as many polls as allowed and jobs are running, going round the targets. No target is passed over:
        if it has running jobs, its next job is polled or the cursor has come nearer to it. */
    method Poll() returns (changed: bool)
      requires Valid()
      modifies this`status, this`queued, this`scheduled, this`running, this`passed, this`failed, this`killed
      modifies this`lastTargetPolled, this`lastItemPolled, this`trace, launchers`pending, launchers`polled
      ensures Valid() && old(trace) <= trace
      ensures changed <==> TotalLen(old(running)) == 0 || |trace| > |old(trace)|
      ensures var polls := if maxPoll <= TotalLen(old(running)) then maxPoll else TotalLen(old(running));
              && |launchers.polled| == |old(launchers.polled)| + polls
              && Potential() + polls <= old(Potential())
      ensures Polls(old(status), status, launchers.verdict)
      ensures Answered(old(status), old(launchers.pending), old(launchers.polled),
                       status, launchers.pending, launchers.polled)
      ensures TotalLen(old(running)) == 0 ==> trace == old(trace) && running == old(running) && queued == old(queued)
      ensures TotalLen(old(running)) > 0 ==>
                TurnsCome(targets, old(running), old(lastItemPolled), old(lastTargetPolled), old(launchers.polled),
                          running, lastItemPolled, lastTargetPolled, launchers.polled, true)
    {
      hide Core, Ready, TotalLen, Potential, Polls, Answered, Rounding, TurnsCome;
      RunningKeys();
      NoneVisited(launchers.verdict, Visit());
      var count := SumDictLists(running);
      var left: nat := if maxPoll <= count then maxPoll else count;
      ghost var polls := left;
      if left == 0 { return true; }
      changed := false;
      ghost var was := Visit();
      ghost var start, wrapped, moved := lastTargetPolled, false, false;
      BeginRound(polls);
      while left > 0
        invariant Rounding(was, polls, left, changed, start, wrapped, moved)
        decreases left, RoundLeft(start, wrapped)
      {
        changed, left, wrapped := PollNextTarget(was, polls, left, changed, start, wrapped, moved);
        moved := true;
      }
      EndRound(was, polls, left, changed, start, wrapped, moved);
    }

    /** How many more targets there are in the round. */
    ghost function RoundLeft(start: int, wrapped: bool): int
      reads this`lastTargetPolled, this`targets
    {
      if wrapped then start - lastTargetPolled else |targets| - lastTargetPolled + start
    }

    ghost function Visit(): Visiting
      reads this`trace, this`status, this`running, this`lastItemPolled, launchers, launchers`polled, launchers`pending
    {
      Visiting(trace, status, running, lastItemPolled, launchers.polled, launchers.pending, Potential())
    }

    /** What holds between the targets of a round. */
    ghost predicate Rounding(was: Visiting, polls: nat, left: nat, changed: bool, start: int, wrapped: bool,
                             moved: bool)
      reads this, launchers
    {
      && Valid()
      && RoundGoes(targets, launchers.verdict, was, Visit(), lastTargetPolled, polls, left, changed, start, wrapped,
                   moved)
    }

    lemma BeginRound(polls: nat)
      requires Valid() && polls <= TotalLen(running)
      ensures Rounding(Visit(), polls, polls,
                       false, lastTargetPolled, false, false)
    {
      hide Core, Ready, TotalLen, Potential, Visited, Passed, TurnsCome;
      RunningKeys();
      NoneVisited(launchers.verdict, Visit());
      NonePassed();
      NoTurnsYet(targets, running, lastItemPolled, lastTargetPolled, launchers.polled);
    }

    lemma EndRound(was: Visiting, polls: nat, left: nat, changed: bool, start: int, wrapped: bool, moved: bool)
      requires Rounding(was, polls, left, changed, start, wrapped, moved) && left == 0
      ensures Valid() && was.trace <= trace && (changed <==> |trace| > |was.trace|)
      ensures |launchers.polled| == |was.polled| + polls && Potential() + polls <= was.potential
      ensures Visited(launchers.verdict, was, Visit())
      ensures polls > 0 ==>
                TurnsCome(targets, was.running, was.marks, start, was.polled, running, lastItemPolled, lastTargetPolled,
                          launchers.polled, true)
    {
      hide Core, Ready, TotalLen, Potential, Polls, Answered, Passed, TurnsCome;
    }

    /** Polls jobs of the next target. */
    method PollNextTarget(ghost was: Visiting, ghost polls: nat, left: nat, changed: bool, ghost start: int,
                          ghost wrapped: bool, ghost moved: bool)
      returns (changed': bool, left': nat, ghost wrapped': bool)
      requires Rounding(was, polls, left, changed, start, wrapped, moved) && left > 0
      modifies this`status, this`queued, this`scheduled, this`running, this`passed, this`failed, this`killed
      modifies this`lastTargetPolled, this`lastItemPolled, this`trace, launchers`pending, launchers`polled
      ensures Rounding(was, polls, left', changed', start, wrapped', true)
      ensures left' <= left && (left' == 0 || 0 <= RoundLeft(start, wrapped') < old(RoundLeft(start, wrapped)))
    {
      hide Core, Ready, TotalLen, Potential, RoundGoes, Distinct, NextIndex, TargetPolled;
      RunningKeys();
      ghost var last := lastTargetPolled;
      var target := NextToVisit();
      ghost var mid := Visit();
      var more;
      left', more := PollTarget(target, left);
      RoundGoesOn(targets, launchers.verdict, was, mid, Visit(), last, polls, left, changed, start, wrapped, moved,
                  left', more);
      changed' := changed || more;
      wrapped' := wrapped || lastTargetPolled != last + 1;
    }

    /** Advances the cursor of the targets. */
    method NextToVisit() returns (target: Target)
      requires Valid() && targets != []
      modifies this`lastTargetPolled
      ensures Valid() && -1 <= old(lastTargetPolled) < |targets|
      ensures lastTargetPolled == NextIndex(|targets|, old(lastTargetPolled)) && target == targets[lastTargetPolled]
    {
      hide Static, Recorded, Ready, Placed, NextIndex;
      var next := GetNextItem(targets, lastTargetPolled);
      target, lastTargetPolled := next.value.0, next.value.1;
    }

    lemma RunningKeys()
      requires Valid()
      ensures forall t :: t in running <==> t in targets
      ensures targets != [] && Distinct(targets) && -1 <= lastTargetPolled < |targets| && launchers.Valid()
      ensures maxPoll > 0 && maxParallel > 0
    {
      hide Graph, Ready, Recorded, TargetsOf;
      HasKeys({});
    }

    lemma NonePassed()
      requires Valid()
      ensures Passed(targets, running, lastTargetPolled, lastTargetPolled, false)
    {
      hide Static, Recorded, Ready, Placed;
    }

    // ---- dispatching ----

    lemma Since(before: seq<Event>, s: Statuses, ds: seq<Job>, limbo: set<Job>)
      requires Core(limbo) && Recorded(items, before, s, ds) && before <= trace
      ensures Continues(s, status)
      ensures AllDepsDone(items, s) && forall j :: j in s ==> j in items
      ensures forall j :: j in s ==> MayRun(items, s, j) == MayRun(items, status, j)
    {
      hide Static, Cursors, Placed, Recorded, DepsDone, MayRun;
      Later(items, before, s, ds, trace, status, launchers.launched);
    }

    /** Every job that has a status has complete dependencies. */
    lemma AllSettled(limbo: set<Job>)
      requires Core(limbo)
      ensures AllDepsDone(items, status)
      ensures Dispatches(items, status, status, launchers.starts)
    {
      hide Static, Cursors, Placed, Recorded, AllDepsDone, MayRun, Dispatches;
      Since(trace, status, launchers.launched, limbo);
      DispatchesNothing(items, status, launchers.starts);
    }

    ghost predicate Runnable(jobs: seq<Job>)
      reads this`status
    {
      forall j :: j in jobs ==> j in status && status[j] == Q && MayRun(items, status, j)
    }

    /** Takes jobs off the head of a queue, cancelling those that may not run, until enough are taken. */
    method TakeJobs(target: Target, quota: nat) returns (batch: seq<Job>)
      requires Valid() && target in targets
      modifies this`status, this`queued, this`scheduled, this`killed, this`trace
      ensures Core(SetOf(batch)) && Ready(items, status) == {} && Distinct(batch)
      ensures old(trace) <= trace && |batch| <= quota && Runnable(batch)
      ensures forall j :: j in batch ==> j.target == target
      ensures target in old(queued) && target in queued && (|batch| == quota || queued[target] == [])
      ensures OthersGrow(targets, old(queued), queued, target)
      ensures Dispatches(items, old(status), status, launchers.starts)
      ensures trace == old(trace) ==> status == old(status) && batch + queued[target] == old(queued[target])
      ensures old(Runnable(queued[target])) ==> trace == old(trace)
      ensures (PoolNow(), batch) == Take(items, old(PoolNow()), target, old(queued[target]), quota)
    {
      hide Core, Ready, Taking, Runnable, Take, SetOf, OthersGrow, Dispatches, Work, Distinct;
      HasKeys({});
      assert HasKey(Here(), target);
      ghost var was, runnable := Now(), Runnable(queued[target]);
      ghost var model := Take(items, PoolNow(), target, queued[target], quota);
      BeginTaking(target, quota);
      var slots := quota;
      batch := [];
      while queued[target] != [] && slots > 0
        invariant target in queued && Taking(was, runnable, model, target, quota, batch, slots)
        decreases Work(items, status), slots
      {
        batch, slots := TakeNext(was, runnable, model, target, quota, batch, slots);
      }
      EndTaking(was, runnable, model, target, quota, batch, slots);
    }

    /** What holds while jobs are taken, since the moment this began. */
    ghost predicate Taking(was: Moment, runnable: bool, model: (Pool, seq<Job>), target: Target, quota: nat,
                           batch: seq<Job>, slots: nat)
      reads this, launchers`launched
    {
      && Batch(target, batch) && |batch| + slots == quota
      && was.trace <= trace && target in queued && target in was.queued
      && OthersGrow(targets, was.queued, queued, target)
      && (trace == was.trace ==> status == was.status && batch + queued[target] == was.queued[target])
      && (runnable ==> trace == was.trace && forall j :: j in was.queued[target] ==> MayRun(items, status, j))
      && Dispatches(items, was.status, status, launchers.starts)
      && AllDepsDone(items, was.status)
      && model == Joined(batch, Take(items, PoolNow(), target, queued[target], slots))
    }

    lemma BeginTaking(target: Target, quota: nat)
      requires Valid() && target in targets
      ensures target in queued
      ensures Taking(Now(), Runnable(queued[target]), Take(items, PoolNow(), target, queued[target], quota), target,
                     quota, [], quota)
    {
      hide Core, Ready, OthersGrow, MayRun, DepsDone, Batch, Dispatches, Take, Joined;
      HasKeys({});
      assert HasKey(Here(), target);
      AllSettled({});
      GrowNone(targets, queued, target);
      EmptyBatch(target);
      JoinedJoin([], [], Take(items, PoolNow(), target, queued[target], quota));
    }

    lemma EndTaking(was: Moment, runnable: bool, model: (Pool, seq<Job>), target: Target, quota: nat, batch: seq<Job>,
                    slots: nat)
      requires Taking(was, runnable, model, target, quota, batch, slots)
      requires target in queued && (queued[target] == [] || slots == 0)
      ensures Core(SetOf(batch)) && Ready(items, status) == {} && Distinct(batch) && Runnable(batch)
      ensures was.trace <= trace && |batch| <= quota && forall j :: j in batch ==> j.target == target
      ensures target in was.queued && (|batch| == quota || queued[target] == [])
      ensures OthersGrow(targets, was.queued, queued, target)
      ensures Dispatches(items, was.status, status, launchers.starts)
      ensures trace == was.trace ==> status == was.status && batch + queued[target] == was.queued[target]
      ensures runnable ==> trace == was.trace
      ensures model == (PoolNow(), batch)
    {
      hide Core, Ready, SetOf, Distinct, Runnable, OthersGrow, MayRun, DepsDone, Dispatches, Take, Joined;
      TakeEnds(items, PoolNow(), target, queued[target], slots);
      JoinedEnd(batch, PoolNow());
    }

    /** Takes or cancels one job. */
    method TakeNext(ghost was: Moment, ghost runnable: bool, ghost model: (Pool, seq<Job>), target: Target,
                    ghost quota: nat, batch: seq<Job>, slots: nat)
      returns (more: seq<Job>, left: nat)
      requires Taking(was, runnable, model, target, quota, batch, slots)
      requires target in queued && queued[target] != [] && slots > 0
      modifies this`status, this`queued, this`scheduled, this`killed, this`trace
      ensures target in queued && Taking(was, runnable, model, target, quota, more, left)
      ensures Work(items, status) < old(Work(items, status)) || (status == old(status) && left < slots)
    {
      hide Batch, OthersGrow, MayRun, DepsDone, Work, Dispatches, Take, Joined, CancelTaken;
      ghost var before, p, s := queued, PoolNow(), status;
      if runnable { assert batch + queued[target] == was.queued[target]; HeadIn(batch, queued[target]); }
      more := TakeOne(target, batch);
      left := if |more| > |batch| then slots - 1 else slots;
      ModelMoves(p, target, before[target], batch, slots, more, left);
      DispatchesOn(items, was.status, s, status, launchers.starts);
      GrowOn(targets, was.queued, before, queued, target);
    }

    lemma HeadIn(batch: seq<Job>, rest: seq<Job>)
      requires rest != []
      ensures rest[0] in batch + rest && batch + rest == batch + [rest[0]] + rest[1..]
    {
    }

    /** The model makes the same step. */
    lemma ModelMoves(p: Pool, target: Target, list: seq<Job>, batch: seq<Job>, slots: nat, more: seq<Job>, left: nat)
      requires list != [] && slots > 0
      requires var x, popped := list[0], Pool(p.status, p.queued[target := list[1..]]);
               if MayRun(items, p.status, x) then PoolNow() == popped && more == batch + [x] && left == slots - 1
               else PoolNow() == CancelTaken(items, popped, x) && more == batch && left == slots
      requires target in queued && queued[target] == list[1..]
      ensures Joined(batch, Take(items, p, target, list, slots)) ==
              Joined(more, Take(items, PoolNow(), target, queued[target], left))
    {
      hide MayRun, Take, Joined, CancelTaken;
      TakeStep(items, p, target, list, slots);
      JoinedJoin(batch, [list[0]], Take(items, PoolNow(), target, queued[target], left));
    }

    /** The jobs taken so far. */
    ghost predicate Batch(target: Target, batch: seq<Job>)
      reads this, launchers`launched
    {
      && Core(SetOf(batch)) && Ready(items, status) == {}
      && Distinct(batch) && Runnable(batch)
      && forall j :: j in batch ==> j.target == target
    }

    lemma EmptyBatch(target: Target)
      requires Valid()
      ensures Batch(target, [])
    {
      SetOfNone();
    }

    /** Takes the next job of a queue into the batch, or cancels it. */
    method TakeOne(target: Target, batch: seq<Job>) returns (more: seq<Job>)
      requires Batch(target, batch) && target in queued && queued[target] != []
      modifies this`status, this`queued, this`scheduled, this`killed, this`trace
      ensures Batch(target, more) && target in queued
      ensures if MayRun(items, old(status), old(queued[target])[0]) then
                && more == batch + [old(queued[target])[0]]
                && trace == old(trace) && status == old(status)
                && target in old(queued) && queued == old(queued)[target := old(queued[target])[1..]]
              else
                && more == batch
                && old(trace) < trace && Work(items, status) < old(Work(items, status))
                && target in old(queued)
                && PoolNow() == CancelTaken(items,
                     Pool(old(status), old(queued)[target := old(queued[target])[1..]]), old(queued[target])[0])
      ensures queued[target] == old(queued[target])[1..]
      ensures OthersGrow(targets, old(queued), queued, target)
      ensures Dispatches(items, old(status), status, launchers.starts)
    {
      hide Core, Ready, SetOf, MayRun, DepsDone, Work, Grown, OthersGrow, Dispatches, CancelTaken;
      ghost var was := queued;
      AllSettled(SetOf(batch));
      more := batch;
      var next := PopNext(target, SetOf(batch));
      ghost var popped := queued;
      var ok := OkToRun(next);
      if ok {
        SetOfMore(batch, next);
        more := batch + [next];
      } else {
        CancelPoppedJob(next, SetOf(batch) + {next}, batch);
        assert SetOf(batch) + {next} - {next} == SetOf(batch);
      }
      GrownToOthers(was, popped, next, batch != more);
    }

    lemma GrownToOthers(was: Lists, popped: Lists, next: Job, same: bool)
      requires next.target in was && next.target in popped && popped == was[next.target := popped[next.target]]
      requires if same then queued == popped else Grown(popped, queued, Some(next))
      ensures OthersGrow(targets, was, queued, next.target)
      ensures next.target in queued && queued[next.target] == popped[next.target]
    {
    }

    method PopNext(target: Target, ghost limbo: set<Job>) returns (next: Job)
      requires Core(limbo) && target in queued && queued[target] != []
      modifies this`queued
      ensures Core(limbo + {next}) && next == old(queued[target][0])
      ensures target in old(queued) && queued == old(queued)[target := old(queued[target])[1..]]
      ensures next in items && next.target == target && next !in limbo
      ensures next in status && status[next] == Q && DepsDone(items, status, next)
    {
      hide Static, Cursors, Recorded, Placed, DepsDone;
      next := queued[target][0];
      Pop(items, status, limbo, Here(), target);
      Since(trace, status, launchers.launched, limbo);
      queued := queued[target := queued[target][1..]];
    }

    method CancelPoppedJob(next: Job, ghost limbo: set<Job>, ghost batch: seq<Job>)
      requires Core(limbo) && next in limbo && Ready(items, status) == {} && !MayRun(items, status, next)
      requires Runnable(batch) && next !in batch
      modifies this`status, this`queued, this`scheduled, this`killed, this`trace
      ensures Core(limbo - {next}) && Ready(items, status) == {}
      ensures old(trace) < trace && Work(items, status) < old(Work(items, status))
      ensures Grown(old(queued), queued, Some(next))
      ensures PoolNow() == CancelTaken(items, old(PoolNow()), next)
      ensures Runnable(batch) && Dispatches(items, old(status), status, launchers.starts)
    {
      hide Static, Cursors, Recorded, Placed, Ready, JustCompleted, DepsDone, AllDepsDone, MayRun, Dispatches, Grown;
      PoppedJob(items, status, limbo, Here(), next);
      ReadyOnCompletion(items, status, next, K);
      CancelItem(next, false, limbo);
      EnqueueSuccessors(Some(next), limbo - {next});
      AllSettled(limbo - {next});
      DispatchesCancel(items, old(status), next, status, launchers.starts);
      Since(old(trace), old(status), old(launchers.launched), limbo - {next});
      WorkSpent(old(trace), old(status), old(launchers.launched), limbo - {next});
    }

    /** Launches the jobs of a batch; a job that cannot be launched is killed. */
    method LaunchAll(batch: seq<Job>)
      requires Core(SetOf(batch)) && Ready(items, status) == {} && Distinct(batch) && Runnable(batch)
      modifies this`status, this`queued, this`scheduled, this`running, this`killed, this`trace
      modifies launchers`launched, launchers`killed
      ensures Valid() && old(trace) <= trace && |trace| >= |old(trace)| + |batch|
      ensures queued == old(queued) && NoneQueued(old(status), status)
      ensures launchers.launched == old(launchers.launched) + batch && Launched(batch, status, launchers.starts)
      ensures Dispatches(items, old(status), status, launchers.starts)
      ensures status == LaunchInTurn(items, old(status), batch, launchers.starts)
      ensures TotalLen(running) <= TotalLen(old(running)) + |batch| && ListsGrow(old(running), running)
      ensures launchers.killed == old(launchers.killed) + Failures(batch, launchers.starts)
    {
      hide Failures, AllDepsDone, ListsGrow, Core, Ready, SetOf, Runnable, NoneQueued, Distinct, TotalLen, Dispatches,
           DepsDone, MayRun, Launched, LaunchInTurn, CascadeOf;
      assert batch[0..] == batch && batch[..0] == [];
      NoneLaunchedYet(items, status, launchers.starts);
      AllSettled(SetOf(batch));
      NoneLaunched(status, launchers.starts);
      AlwaysNone(status);
      ListsSame(running);
      NoFailures(launchers.starts);
      for i := 0 to |batch|
        invariant Core(SetOf(batch[i..])) && Ready(items, status) == {} && Runnable(batch[i..])
        invariant old(trace) <= trace && |trace| >= |old(trace)| + i
        invariant queued == old(queued) && NoneQueued(old(status), status)
        invariant launchers.launched == old(launchers.launched) + batch[..i]
        invariant Dispatches(items, old(status), status, launchers.starts)
        invariant Launched(batch[..i], status, launchers.starts)
        invariant status == LaunchInTurn(items, old(status), batch[..i], launchers.starts)
        invariant TotalLen(running) <= TotalLen(old(running)) + i && ListsGrow(old(running), running)
        invariant launchers.killed == old(launchers.killed) + Failures(batch[..i], launchers.starts)
      {
        SetOfRest(batch, i);
        assert batch[i..] == [batch[i]] + batch[i + 1..];
        ghost var s := status;
        ghost var mid := running;
        LaunchOne(batch[i], SetOf(batch[i..]), batch[i + 1..]);
        ListsGrowOn(old(running), mid, running);
        NoneQueuedOn(old(status), s, status);
        DispatchesOn(items, old(status), s, status, launchers.starts);
        LaunchOneMore(items, old(status), batch[..i], launchers.starts, batch[i]);
        LaunchedStays(items, batch[..i], batch[i], s, status, launchers.starts);
        FailuresJoin(batch[..i], [batch[i]], launchers.starts);
        assert batch[..i + 1] == batch[..i] + [batch[i]];
      }
      assert batch[|batch|..] == [] && batch[..|batch|] == batch;
      SetOfNone();
    }

    method LaunchOne(item: Job, ghost limbo: set<Job>, ghost rest: seq<Job>)
      requires Core(limbo) && item in limbo && Ready(items, status) == {} && Runnable([item] + rest) && item !in rest
      modifies this`status, this`queued, this`scheduled, this`running, this`killed, this`trace
      modifies launchers`launched, launchers`killed
      ensures Core(limbo - {item}) && Ready(items, status) == {} && Runnable(rest)
      ensures old(trace) + [Event(item, D)] <= trace
      ensures queued == old(queued) && NoneQueued(old(status), status)
      ensures launchers.launched == old(launchers.launched) + [item]
      ensures item in status && status[item] == if launchers.starts(item) then D else K
      ensures status == if launchers.starts(item) then old(status)[item := D]
                        else CascadeOf(items, old(status)[item := K])
      ensures Dispatches(items, old(status), status, launchers.starts)
      ensures TotalLen(running) <= TotalLen(old(running)) + 1 && ListsGrow(old(running), running)
      ensures launchers.killed == old(launchers.killed) + Failures([item], launchers.starts)
    {
      hide Core, Ready, MayRun, TotalLen, Dispatches, CascadeOf, Runnable, NoneQueued, ListsGrow, AllDepsDone, Struck,
           Cascade, Failures;
      AllSettled(limbo);
      OneFailure(item, launchers.starts);
      RunnableParts(item, rest);
      NotRunning(item, limbo);
      RecordedNow(limbo);
      NoneQueuedOne(status, item);
      var ok := StartJob(item, limbo);
      if !ok { KillStarted(item, limbo - {item}, old(status), old(running)); }
      AppendGrows(old(running), item);
      LaunchStrikes(old(status), item, limbo - {item});
      DispatchesLaunch(items, old(status), item, status, launchers.starts);
      StillCanRun(old(trace), old(status), old(launchers.launched), limbo - {item}, item, rest);
    }

    /** Whatever else a launch completes, it is struck. */
    lemma LaunchStrikes(s: Statuses, item: Job, limbo: set<Job>)
      requires Core(limbo) && item in items && item in s && s[item] == Q && MayRun(items, s, item)
      requires Ready(items, s) == {} && AllDepsDone(items, s)
      requires if launchers.starts(item) then status == s[item := D] else Cascade(items, s[item := K], status)
      ensures AllDepsDone(items, status)
      ensures forall j :: j in status && j !in s ==> Struck(items, launchers.starts, status, j)
    {
      hide Core, MayRun, Ready, AllDepsDone, Struck, Cascade;
      AllSettled(limbo);
      if !launchers.starts(item) {
        forall j | j in status && j !in s ensures Struck(items, launchers.starts, status, j) {
          CascadeStrikes(items, launchers.starts, s, item, status, j);
        }
      }
    }

    lemma NotRunning(item: Job, limbo: set<Job>)
      requires Core(limbo) && item in limbo
      ensures item.target in running && item !in running[item.target]
    {
      hide Static, Cursors, Recorded, WaitBox, SetBox;
      PoppedJob(items, status, limbo, Here(), item);
      TargetsOfSpec(items);
    }

    lemma AppendGrows(was: Lists, item: Job)
      requires item.target in was
      ensures ListsGrow(was, was) && ListsGrow(was, Append(was, item))
      ensures SetList(Append(was, item), item.target, was[item.target]) == was
    {
    }

    lemma RunnableParts(item: Job, rest: seq<Job>)
      requires Runnable([item] + rest)
      ensures item in status && status[item] == Q && MayRun(items, status, item)
      ensures forall j :: j in rest ==> j in status && status[j] == Q && MayRun(items, status, j)
    {
      assert ([item] + rest)[0] == item;
      assert forall j :: j in rest ==> j in [item] + rest;
    }

    lemma RecordedNow(limbo: set<Job>)
      requires Core(limbo)
      ensures Recorded(items, trace, status, launchers.launched)
    {
      hide Static, Cursors, Recorded, Placed;
    }

    lemma InLast(l: seq<Job>, x: Job)
      ensures x in l + [x]
    {
    }

    /** Jobs that could run and have not moved still can. */
    lemma StillCanRun(before: seq<Event>, s: Statuses, ds: seq<Job>, limbo: set<Job>, item: Job, rest: seq<Job>)
      requires Core(limbo) && Recorded(items, before, s, ds) && before <= trace && item !in rest
      requires forall j :: j in rest ==> j in s && s[j] == Q && MayRun(items, s, j)
      requires forall j :: j in s && j != item ==> j in status && status[j] == s[j]
      ensures Runnable(rest)
    {
      hide Core, Recorded, MayRun, DepsDone;
      Since(before, s, ds, limbo);
    }

    /** Undoes a launch that failed. */
    method KillStarted(item: Job, ghost limbo: set<Job>, ghost s: Statuses, ghost was: Lists)
      requires Core(limbo) && item in items && item in s && status == s[item := D] && Ready(items, status) == {}
      requires item.target in was && item !in was[item.target] && running == Append(was, item)
      requires NoneQueued(s, status)
      modifies this`status, this`queued, this`scheduled, this`running, this`killed, this`trace, launchers`killed
      ensures Core(limbo) && Ready(items, status) == {} && NoneQueued(s, status)
      ensures forall j :: j in s && j != item ==> j in status && status[j] == s[j]
      ensures forall j :: j in status && (j == item || j !in s) ==> status[j] == K
      ensures item in status && status == CascadeOf(items, s[item := K])
      ensures Cascade(items, s[item := K], status) && launchers.killed == old(launchers.killed) + [item]
      ensures old(trace) <= trace && queued == old(queued)
      ensures running == was && TotalLen(running) <= TotalLen(old(running))
    {
      hide Core, Ready, TotalLen, NoneQueued, CascadeOf, Cascade;
      InLast(was[item.target], item);
      assert s[item := D][item := K] == s[item := K];
      KillLaunched(item, limbo);
      NoneQueuedOn(s, old(status), status);
      RemoveFirstOfMore(was[item.target], item, item);
    }

    method KillLaunched(item: Job, ghost limbo: set<Job>)
      requires Core(limbo) && item in items && item in status && status[item] == D && Ready(items, status) == {}
      requires item.target in running && item in running[item.target]
      modifies this`status, this`queued, this`scheduled, this`running, this`killed, this`trace, launchers`killed
      ensures Core(limbo) && Ready(items, status) == {} && NoneQueued(old(status), status)
      ensures forall j :: j in old(status) && j != item ==> j in status && status[j] == old(status[j])
      ensures forall j :: j in status && (j == item || j !in old(status)) ==> status[j] == K
      ensures item in status && status == CascadeOf(items, old(status)[item := K])
      ensures Cascade(items, old(status)[item := K], status) && launchers.killed == old(launchers.killed) + [item]
      ensures old(trace) <= trace && queued == old(queued)
      ensures TotalLen(running) <= TotalLen(old(running))
      ensures running == SetList(old(running), item.target, RemoveFirst(old(running[item.target]), item))
    {
      hide Core, Ready, TotalLen, NoneQueued, CascadeOf;
      KillItem(item, limbo);
      CascadeOfSpec(items, old(status)[item := K]);
      CascadeUnique(items, old(status)[item := K], status, CascadeOf(items, old(status)[item := K]));
      NoneQueuedByCascade(items, old(status), item, status);
      RemoveFirstLength(old(running[item.target]), item);
      TotalLenUpdate(old(running), item.target, running[item.target]);
    }

    method StartJob(item: Job, ghost limbo: set<Job>) returns (ok: bool)
      requires Core(limbo) && item in limbo && Ready(items, status) == {} && MayRun(items, status, item)
      modifies this`status, this`running, this`trace, launchers`launched
      ensures Core(limbo - {item}) && Ready(items, status) == {} && item in items
      ensures status == old(status)[item := D] && trace == old(trace) + [Event(item, D)]
      ensures item.target in old(running) && running == Append(old(running), item)
      ensures launchers.launched == old(launchers.launched) + [item]
      ensures TotalLen(running) == TotalLen(old(running)) + 1
      ensures ok == launchers.starts(item) && item in old(status) && old(status[item]) == Q
    {
      hide Static, Cursors, Placed, Recorded, Ready, MayRun, TotalLen;
      PoppedJob(items, status, limbo, Here(), item);
      Start(items, status, limbo, Here(), item);
      RecordOne(items, trace, status, launchers.launched, Event(item, D));
      ReadyAfterActive(items, status, item, D);
      TotalLenUpdate(running, item.target, running[item.target] + [item]);
      running := running[item.target := running[item.target] + [item]];
      Record(item, D);
      ok := launchers.Launch(item);
    }

    /** Uses up to quota slots for jobs of one target. */
    method DispatchTarget(target: Target, quota: nat) returns (ghost jobs: seq<Job>)
      requires Valid() && target in targets && target in queued && queued[target] != [] && quota > 0
      modifies this`status, this`queued, this`scheduled, this`running, this`killed, this`trace
      modifies launchers`launched, launchers`killed
      ensures Valid() && old(trace) <= trace && |trace| > |old(trace)|
      ensures OthersGrow(targets, old(queued), queued, target)
      ensures TotalLen(running) <= TotalLen(old(running)) + quota && ListsGrow(old(running), running)
      ensures launchers.launched == old(launchers.launched) + jobs && forall j :: j in jobs ==> j.target == target
      ensures |jobs| <= quota && target in queued && (|jobs| == quota || queued[target] == [])
      ensures Launched(jobs, status, launchers.starts)
      ensures (PoolNow(), jobs) == TargetTurn(items, launchers.starts, old(PoolNow()), target, quota)
      ensures Dispatches(items, old(status), status, launchers.starts)
      ensures old(Runnable(queued[target])) ==> NoneQueued(old(status), status)
      ensures launchers.killed == old(launchers.killed) + Failures(jobs, launchers.starts)
    {
      hide Core, Ready, Runnable, OthersGrow, NoneQueued, TotalLen, Dispatches, AllDepsDone, MayRun, Launched,
           LaunchInTurn, Take, ListsGrow, Failures;
      NoFailures(launchers.starts);
      ListsSame(running);
      NoneLaunched(status, launchers.starts);
      AlwaysNone(status);
      AllSettled({});
      var batch := TakeJobs(target, quota);
      jobs := batch;
      ghost var s := status;
      if batch != [] {
        LaunchAll(batch);
      } else {
        SetOfNone();
        AllSettled({});
        NoneLaunchedYet(items, s, launchers.starts);
        NoneLaunched(s, launchers.starts);
      }
      DispatchesOn(items, old(status), s, status, launchers.starts);
    }

    method TotalWeight() returns (sum: nat)
      requires forall t :: t in targets ==> t in queued
      ensures sum == HeadWeights(targets, queued)
    {
      sum := 0;
      for i := 0 to |targets|
        invariant sum == HeadWeights(targets[..i], queued)
      {
        HeadWeightsMore(targets, queued, i);
        if queued[targets[i]] != [] { sum := sum + queued[targets[i]][0].weight; }
      }
      assert targets[..|targets|] == targets;
    }

    /** A queue that was empty at the start of the pass and is not any more received a job in the pass. */
    lemma LateQueue(before: seq<Event>, s: Statuses, ds: seq<Job>, was: Lists, t: Target)
      requires Valid() && Recorded(items, before, s, ds) && before <= trace
      requires ListBox(items, s, was, Q, {}) && t in was && was[t] == []
      requires t in queued && queued[t] != []
      ensures QueueFilled(before, trace, was) && !NoneQueued(s, status)
    {
      hide Core, Legal, Replay, Ready;
      HeadIsQueued(t);
      var x := queued[t][0];
      NotThere(s, was, t, x);
      RunningNow();
      assert trace[..|before|] == before;
      QueuedSince(items, trace, |before|, x);
    }

    lemma HeadIsQueued(t: Target)
      requires Valid() && t in queued && queued[t] != []
      ensures var x := queued[t][0]; x in items && x in status && status[x] == Q && x.target == t
    {
      hide Static, Cursors, Recorded, Placed, Ready;
      QueuedJob(items, status, {}, Here(), t, 0);
    }

    lemma NotThere(s: Statuses, was: Lists, t: Target, x: Job)
      requires ListBox(items, s, was, Q, {}) && t in was && was[t] == []
      requires x in items && x.target == t
      ensures x in s ==> s[x] != Q
    {
      assert x !in was[t];
      assert x !in At(items, s, t, Q);
    }

    ghost predicate AllRunnable()
      reads this`status, this`queued
    {
      forall t :: t in queued ==> Runnable(queued[t])
    }

    /** If all queued jobs could run and no other was queued, those still queued can run. */
    lemma StillRunnable(before: seq<Event>, s: Statuses, ds: seq<Job>, was: Lists, t: Target)
      requires Valid() && Recorded(items, before, s, ds) && before <= trace && NoneQueued(s, status)
      requires ListBox(items, s, was, Q, {}) && t in was && t in queued
      requires forall j :: j in was[t] ==> MayRun(items, s, j)
      ensures Runnable(queued[t])
    {
      hide Static, Cursors, Recorded, Ready, MayRun, DepsDone;
      Since(before, s, ds, {});
      forall j | j in queued[t] ensures j in status && status[j] == Q && MayRun(items, status, j) {
        assert j in At(items, status, t, Q);
        assert j in At(items, s, t, Q);
        assert j in was[t];
      }
    }

    lemma PositiveHead(i: nat)
      requires Valid() && i < |targets| && targets[i] in queued && queued[targets[i]] != []
      ensures queued[targets[i]][0].weight > 0
      ensures HeadWeights(targets, queued) > 0
    {
      hide Cursors, Recorded, Ready, TargetsOf;
      QueuedJob(items, status, {}, Here(), targets[i], 0);
      HeadWeightsAtLeast(targets, queued, i);
    }

    /** One pass over the targets in order. The plan says what it did for each target it met: which weight was at the
        head of its queue, and which jobs were launched, as many as its quota unless its queue became empty. If some
        queue was not empty the pass does something. If no empty queue was filled during the pass, for which it is
        enough that every queued job may run, then exactly the free slots were given out, and no more jobs run than
        allowed. The state before decides when a queue is filled and how many jobs are launched, and so when too many
        jobs run: only if a queue is filled, and, if every quota finds enough jobs, exactly if the weight of the queues
        filled does not round away. */
    method Dispatch() returns (ghost plan: seq<Share>)
      requires Valid()
      modifies this`status, this`queued, this`scheduled, this`running, this`killed, this`trace
      modifies launchers`launched, launchers`killed
      ensures Valid() && old(trace) <= trace
      ensures HeadShares(plan, old(queued))
      ensures launchers.launched == old(launchers.launched) + Launches(plan)
      ensures launchers.killed == old(launchers.killed) + Failures(Launches(plan), launchers.starts)
      ensures var slots, total := maxParallel - TotalLen(old(running)), HeadWeights(targets, old(queued));
              if slots <= 0 || total == 0 then
                trace == old(trace) && running == old(running) && queued == old(queued)
              else
                && (PoolNow(), plan) == old(PassFrom(slots, total, 0, []))
                && |trace| > |old(trace)| && Sum(Weights(plan)) >= total
                && Fair(slots, total, plan, queued)
                && Launched(Launches(plan), status, launchers.starts)
                && TotalLen(running) == TotalLen(old(running)) + old(LaunchesNow(slots, total))
                && TotalLen(running) <= TotalLen(old(running)) + Sum(Quotas(slots, total, Weights(plan)))
                && (!QueueFilled(old(trace), trace, old(queued)) ==>
                      && Sum(Weights(plan)) == total && Sum(Quotas(slots, total, Weights(plan))) == slots
                      && TotalLen(running) <= maxParallel)
      ensures var slots, total := maxParallel - TotalLen(old(running)), HeadWeights(targets, old(queued));
              slots > 0 && total > 0 ==>
                && (Sum(Weights(plan)) > total <==> old(FillsQueue(slots, total)))
                && (TotalLen(running) > maxParallel <==> old(LaunchesNow(slots, total)) > slots)
                && (TotalLen(running) > maxParallel ==> old(FillsQueue(slots, total)))
                && (old(AmpleNow(slots, total)) ==>
                      var late := Sum(Weights(plan)) - total;
                      (TotalLen(running) > maxParallel <==>
                         2 * (slots * late) > total || (2 * (slots * late) == total && slots % 2 == 1)))
      ensures Dispatches(items, old(status), status, launchers.starts)
      ensures TotalLen(running) == |RunningJobs(items, status)|
      ensures PoolNow() == DispatchOf(items, launchers.starts, maxParallel, old(PoolNow()))
      ensures ListsGrow(old(running), running)
      ensures old(AllRunnable()) && TotalLen(old(running)) <= maxParallel ==> TotalLen(running) <= maxParallel
    {
      hide PassResult, ListsGrow, DispatchOf, PassFrom, FillsQueue, LaunchesNow, AmpleNow, LateShare, Pass, Dispatches,
           Core, Ready, AllRunnable, NoneQueued, TotalLen, Quotas, Sum, HeadWeights, QueueFilled, Fair, Weights,
           Launches, Launched, Recorded, Startable, RunningJobs, Failures, HeadShares;
      plan := [];
      NoHeads(queued);
      EmptyPlan();
      NoFailures(launchers.starts);
      ListsSame(running);
      RunningNow();
      AllSettled({});
      var count := SumDictLists(running);
      var slots := maxParallel - count;
      DispatchNow(slots, HeadWeights(targets, queued));
      if slots <= 0 { return; }
      RunningKeys();
      QueuedKeys();
      var total := TotalWeight();
      if total > 0 { PassAhead(slots, total); }
      plan := DispatchPass(slots, total);
      PassOver(Snapshot(old(Now()), slots, total, old(AllRunnable()), launchers.starts), plan);
    }

    /** What the result of a pass says about the number of running jobs. */
    lemma PassOver(start: Snapshot, plan: seq<Share>)
      requires Valid() && PassResult(items, start, plan, Now()) && start.starts == launchers.starts && start.slots > 0
      requires Recorded(items, start.at.trace, start.at.status, start.at.launched)
      requires TotalLen(start.at.running) == |RunningJobs(items, start.at.status)|
      ensures start.at.trace <= trace && Sum(Weights(plan)) >= start.total
      ensures Dispatches(items, start.at.status, status, launchers.starts)
      ensures TotalLen(running) == |RunningJobs(items, status)|
      ensures launchers.launched == start.at.launched + Launches(plan) && HeadShares(plan, start.at.queued)
      ensures start.total == 0 ==>
                trace == start.at.trace && running == start.at.running && queued == start.at.queued
      ensures start.total > 0 ==>
                && |trace| > |start.at.trace| && Fair(start.slots, start.total, plan, queued)
                && Launched(Launches(plan), status, launchers.starts)
                && TotalLen(running) == TotalLen(start.at.running) + |Startable(Launches(plan), launchers.starts)|
                && TotalLen(running) <=
                     TotalLen(start.at.running) + Sum(Quotas(start.slots, start.total, Weights(plan)))
                && (Sum(Weights(plan)) == start.total ==>
                      Sum(Quotas(start.slots, start.total, Weights(plan))) == start.slots)
      ensures !QueueFilled(start.at.trace, trace, start.at.queued) || start.runnable ==>
                Sum(Weights(plan)) == start.total
      ensures Sum(Weights(plan)) > start.total <==> LateShare(plan, start.at.queued)
    {
      hide LateShare, Dispatches, Core, Ready, TotalLen, Quotas, Sum, QueueFilled, Fair, Weights, Launches, Launched,
           Recorded, Startable, RunningJobs;
      RunningNow();
      RunningGrows(start.at.trace, start.at.status, start.at.launched, TotalLen(start.at.running));
      if start.total > 0 {
        QuotasFillSlots(start.slots, start.total, Sum(Weights(plan)) - start.total, Weights(plan));
      }
    }

    /** In the pass that starts now, some turn fills a queue that is empty now. */
    ghost predicate FillsQueue(slots: nat, total: nat)
      requires total > 0
      reads this`status, this`queued, this`targets, launchers
    {
      FillsFrom(items, launchers.starts, targets, slots, total, 0, [], PoolNow(), queued)
    }

    /** In the pass that starts now, how many jobs are launched and start. */
    ghost function LaunchesNow(slots: nat, total: nat): nat
      requires total > 0
      reads this`status, this`queued, this`targets, launchers
    {
      LaunchesFrom(items, launchers.starts, targets, slots, total, 0, [], PoolNow())
    }

    /** In the pass that starts now, every turn finds as many jobs as its quota that may run and can be launched. */
    ghost predicate AmpleNow(slots: nat, total: nat)
      requires total > 0
      reads this`status, this`queued, this`targets, launchers
    {
      Ample(items, launchers.starts, targets, slots, total, 0, [], PoolNow())
    }

    /** What the model says of the pass that starts now. */
    lemma PassAhead(slots: nat, total: nat)
      requires Valid() && total > 0 && total == HeadWeights(targets, queued)
      ensures var plan := PassFrom(slots, total, 0, []).1;
              var late := Sum(Weights(plan)) - total;
              && |Startable(Launches(plan), launchers.starts)| == LaunchesNow(slots, total)
              && (LateShare(plan, queued) <==> FillsQueue(slots, total))
              && (LaunchesNow(slots, total) > slots ==> FillsQueue(slots, total))
              && (AmpleNow(slots, total) ==>
                    (LaunchesNow(slots, total) > slots <==>
                       2 * (slots * late) > total || (2 * (slots * late) == total && slots % 2 == 1)))
    {
      hide Core, Ready, Underway, Pass, LaunchesFrom, FillsFrom, Ample, LateShare, LateWeight, HeadWeights, Sum,
           Weights, Startable, Launches;
      PassBegins();
      LaunchesExactly(items, launchers.starts, targets, slots, total, PoolNow());
      LateExactly(items, launchers.starts, targets, slots, total, PoolNow());
      ExceedsOnlyIfFilled(items, launchers.starts, targets, slots, total, PoolNow());
    }

    lemma PassBegins()
      requires Valid()
      ensures Underway(items, targets, 0, PoolNow(), queued)
    {
      hide Static, Cursors, Recorded, Placed, Ready, Layered, DepsDone, QueueOf;
      HasKeys({});
      AllSettled({});
      GraphIsLayered();
      forall k | 0 <= k < |targets| ensures targets[k] in queued { assert HasKey(Here(), targets[k]); }
      forall t | t in queued ensures QueueOf(items, status, t, queued[t]) { QueuesAreJobs(t); }
      forall j | j in status ensures j in items { StartedIsItem(j); }
    }

    lemma QueuesAreJobs(t: Target)
      requires Valid() && t in queued
      ensures QueueOf(items, status, t, queued[t])
    {
      hide Static, Cursors, Recorded, Ready, WaitBox, SetBox, DepsDone;
      forall j | j in queued[t] ensures j in items && j.target == t && j in status && status[j] == Q {
        assert j in At(items, status, t, Q);
      }
    }

    lemma GraphIsLayered()
      requires Static()
      ensures Layered(items)
    {
      hide Graph;
      forall j, d | j in items && d in items && d in j.deps ensures Follows(TargetsOf(items), d.target, j.target) {
        GraphDependency(items, j, d);
      }
    }

    lemma StartedIsItem(j: Job)
      requires Valid() && j in status
      ensures j in items
    {
      hide Static, Cursors, Recorded, Placed, Ready;
      Since(trace, status, launchers.launched, {});
    }

    lemma DispatchNow(slots: int, total: nat)
      requires Valid() && slots == maxParallel - TotalLen(running) && total == HeadWeights(targets, queued)
      ensures DispatchOf(items, launchers.starts, maxParallel, PoolNow()) ==
                if slots <= 0 || total == 0 then PoolNow() else PassFrom(slots, total, 0, []).0
    {
      hide Core, Ready, Pass, RunningJobs, TotalLen, HeadWeights;
      HasKeys({});
      RunningNow();
    }

    lemma RunningNow()
      requires Valid()
      ensures TotalLen(running) == |RunningJobs(items, status)|
      ensures Recorded(items, trace, status, launchers.launched)
    {
      hide Static, Cursors, Recorded, Placed, Ready;
      RunningCount(items, status, {}, Here());
    }

    /** Since some earlier moment, as many more jobs run as were launched since and could be. */
    lemma RunningGrows(before: seq<Event>, s: Statuses, ds: seq<Job>, was: nat)
      requires Valid() && Recorded(items, before, s, ds) && before <= trace
      requires Dispatches(items, s, status, launchers.starts) && was == |RunningJobs(items, s)|
      ensures ds <= launchers.launched
      ensures var since := launchers.launched[|ds|..];
              Launched(since, status, launchers.starts) ==>
                TotalLen(running) == was + |Startable(since, launchers.starts)|
    {
      hide Valid, Recorded, Dispatches, Launched, Startable, RunningJobs;
      RunningNow();
      RunningSince(items, before, s, ds, trace, status, launchers.launched, launchers.starts);
    }

    method DispatchPass(slots: nat, total: nat) returns (ghost plan: seq<Share>)
      requires Valid() && total == HeadWeights(targets, queued)
      modifies this`status, this`queued, this`scheduled, this`running, this`killed, this`trace
      modifies launchers`launched, launchers`killed
      ensures Valid()
      ensures PassResult(items, Snapshot(old(Now()), slots, total, old(AllRunnable()), launchers.starts), plan, Now())
      ensures ListsGrow(old(running), running)
      ensures total > 0 ==> (PoolNow(), plan) == old(PassFrom(slots, total, 0, []))
      ensures total == 0 ==> PoolNow() == old(PoolNow())
      ensures launchers.killed == old(launchers.killed) + Failures(Launches(plan), launchers.starts)
    {
      hide Pass, Valid, Passing, PassResult, Sum, Weights, AllRunnable, ListsGrow, Failures, Launches;
      NoFailures(launchers.starts);
      ListsSame(running);
      ghost var start := Snapshot(Now(), slots, total, AllRunnable(), launchers.starts);
      BeginPass(start);
      plan := [];
      ghost var late := false;
      var sumWeight, slotsFilled := 0, 0;
      EmptyPlan();
      for i := 0 to |targets|
        invariant Valid() && Passing(items, targets, start, i, plan, slotsFilled, late, Now())
        invariant sumWeight == Sum(Weights(plan))
        invariant total > 0 ==> PassFrom(slots, total, i, plan) == old(PassFrom(slots, total, 0, []))
        invariant total == 0 ==> PoolNow() == old(PoolNow())
        invariant ListsGrow(old(running), running)
        invariant launchers.killed == old(launchers.killed) + Failures(Launches(plan), launchers.starts)
      {
        ghost var mid := running;
        plan, sumWeight, slotsFilled, late :=
          PassTarget(start, i, slots, total, plan, sumWeight, slotsFilled, late, old(launchers.killed));
        ListsGrowOn(old(running), mid, running);
      }
      if total > 0 { PassEnds(items, launchers.starts, targets, slots, total, plan, PoolNow()); }
      PassEnd(items, targets, start, plan, slotsFilled, late, Now());
    }

    ghost function Now(): Moment
      reads this`trace, this`status, this`queued, this`running, launchers`launched
    {
      Moment(trace, status, launchers.launched, queued, running)
    }

    lemma BeginPass(start: Snapshot)
      requires Valid() && start.total == HeadWeights(targets, queued)
      requires start.at == Now() && start.runnable == AllRunnable() && start.starts == launchers.starts
      ensures Passing(items, targets, start, 0, [], 0, false, Now())
    {
      hide AllDepsDone, Static, Cursors, Recorded, Placed, Ready, MayRun, TotalLen, HeadWeight, Dispatches;
      AllSettled({});
      QueuedKeys();
      RunningKeys();
      assert targets[..0] == [] && HeadWeights([], queued) == 0;
      assert start.total > 0 ==> Quotas(start.slots, start.total, []) == [];
    }

    /** The part of the pass that concerns one target. */
    method PassTarget(ghost start: Snapshot, i: nat, slots: nat, total: nat, ghost plan: seq<Share>,
                      sumWeight: nat, slotsFilled: nat, ghost late: bool, ghost was: seq<Job>)
      returns (ghost plan': seq<Share>, sumWeight': nat, slotsFilled': nat, ghost late': bool)
      requires Valid() && i < |targets| && slots == start.slots && total == start.total
      requires start.starts == launchers.starts
      requires Passing(items, targets, start, i, plan, slotsFilled, late, Now()) && sumWeight == Sum(Weights(plan))
      requires launchers.killed == was + Failures(Launches(plan), launchers.starts)
      modifies this`status, this`queued, this`scheduled, this`running, this`killed, this`trace
      modifies launchers`launched, launchers`killed
      ensures Valid() && Passing(items, targets, start, i + 1, plan', slotsFilled', late', Now())
      ensures sumWeight' == Sum(Weights(plan'))
      ensures ListsGrow(old(running), running)
      ensures total > 0 ==> PassFrom(slots, total, i + 1, plan') == old(PassFrom(slots, total, i, plan))
      ensures total == 0 ==> PoolNow() == old(PoolNow())
      ensures launchers.killed == was + Failures(Launches(plan'), launchers.starts)
    {
      hide Failures, Launches, ListsGrow, TargetTurn, Pass, Dispatches, Core, Ready, Passing, PassFrame, PassMove,
           NoneQueued, Quotas, Sum, Weights, HeadWeights, Nearest, ListBox, Runnable, QueueFilled, Grant, Round,
           StepFits, Launched;
      plan', sumWeight', slotsFilled', late' := plan, sumWeight, slotsFilled, late;
      ListsSame(running);
      RunningKeys();
      QueuedKeys();
      var target := targets[i];
      if queued[target] == [] {
        if total > 0 { PassSkips(items, launchers.starts, targets, slots, total, i, plan, PoolNow()); }
        PassSkip(items, targets, start, i, plan, slotsFilled, late, Now());
        return;
      }
      var weight := queued[target][0].weight;
      PositiveHead(i);
      PassFacts(items, targets, start, i, plan, slotsFilled, late, Now());
      PassLate(start, i);
      sumWeight' := sumWeight + weight;
      var targetSlots := QuotaOf(slots, total, sumWeight', slotsFilled, Weights(plan), weight);
      ghost var before := Now();
      PassTurns(items, launchers.starts, targets, slots, total, i, plan, PoolNow());
      ghost var jobs := DispatchShare(target, targetSlots);
      if targetSlots > 0 { slotsFilled' := slotsFilled + targetSlots; }
      PassShare(items, targets, start, i, plan, slotsFilled, late, before, Share(target, weight, jobs), Now());
      late' := late || start.at.queued[target] == [];
      FailuresOfPlan(plan, Share(target, weight, jobs), launchers.starts);
      plan' := plan + [Share(target, weight, jobs)];
    }

    /** What is left of the share of the weights met so far, the last of which is w. */
    method QuotaOf(slots: nat, total: nat, sumWeight: nat, slotsFilled: nat, ghost ws: seq<nat>, ghost w: nat)
      returns (targetSlots: int)
      requires total > 0 && sumWeight == Sum(ws) + w && slotsFilled == Sum(Quotas(slots, total, ws))
      ensures Grant(slots, total, ws, w) == if targetSlots <= 0 then 0 else targetSlots
    {
      hide Grant, Sum, Quotas, Round;
      GrantIs(slots, total, ws, w, sumWeight, slotsFilled);
      targetSlots := Round(slots * sumWeight, total) - slotsFilled;
    }

    /** What the model makes of the rest of the pass. */
    ghost function PassFrom(slots: nat, total: nat, i: nat, plan: seq<Share>): (Pool, seq<Share>)
      requires total > 0
      reads this`status, this`queued, this`targets, launchers
    {
      Pass(items, launchers.starts, targets, slots, total, i, plan, PoolNow())
    }

    lemma PassLate(start: Snapshot, i: nat)
      requires Valid() && PassFrame(items, targets, start, Now()) && i < |targets|
      requires targets[i] in queued && queued[targets[i]] != [] && targets[i] in start.at.queued
      ensures start.at.queued[targets[i]] == [] ==>
                QueueFilled(start.at.trace, trace, start.at.queued) && !start.runnable
      ensures start.runnable ==> Runnable(queued[targets[i]])
    {
      hide Core, Ready, Recorded, ListBox, QueueFilled, NoneQueued, Runnable, MayRun;
      var a := start.at;
      if a.queued[targets[i]] == [] { LateQueue(a.trace, a.status, a.launched, a.queued, targets[i]); }
      if start.runnable { StillRunnable(a.trace, a.status, a.launched, a.queued, targets[i]); }
    }

    method DispatchShare(target: Target, quota: int) returns (ghost jobs: seq<Job>)
      requires Valid() && target in targets && target in queued && queued[target] != []
      modifies this`status, this`queued, this`scheduled, this`running, this`killed, this`trace
      modifies launchers`launched, launchers`killed
      ensures Valid() && PassMove(targets, target, old(Now()), if quota <= 0 then 0 else quota, jobs, Now())
      ensures old(Runnable(queued[target])) ==> NoneQueued(old(status), status)
      ensures Dispatches(items, old(status), status, launchers.starts)
      ensures (PoolNow(), jobs) ==
              TargetTurn(items, launchers.starts, old(PoolNow()), target, if quota <= 0 then 0 else quota)
      ensures Launched(jobs, status, launchers.starts) && ListsGrow(old(running), running)
      ensures launchers.killed == old(launchers.killed) + Failures(jobs, launchers.starts)
    {
      hide Core, Ready, Runnable, OthersGrow, NoneQueued, TotalLen, Dispatches, TargetTurn, Launched, ListsGrow,
           Failures, AllDepsDone;
      NoFailures(launchers.starts);
      ListsSame(running);
      NoneLaunched(status, launchers.starts);
      NoTurn(items, launchers.starts, PoolNow(), target);
      AllSettled({});
      GrowNone(targets, queued, target);
      AlwaysNone(status);
      jobs := [];
      if quota > 0 { jobs := DispatchTarget(target, quota); }
    }

    lemma QueuedKeys()
      requires Valid()
      ensures forall t :: t in queued <==> t in targets
      ensures ListBox(items, status, queued, Q, {})
    {
      hide Graph, Ready, Recorded, TargetsOf;
    }

    // ---- the main loop ----

    method CheckIfDone() returns (done: bool)
      requires Valid()
      ensures done <==> AllTerminal(items, status)
    {
      hide Graph, Placed, Recorded, TargetsOf, Ready, OfTarget;
      HasKeys({});
      GraphTargets(items);
      done := true;
      for i := 0 to |targets|
        invariant done <==> forall j :: j in items && j.target in targets[..i] ==> Terminal(status, j)
      {
        var target := targets[i];
        TargetDone(items, status, Here(), target);
        var count := |passed[target]| + |failed[target]| + |killed[target]|;
        done := done && count == total[target];
        assert total[target] > 0;
        assert targets[..i + 1] == targets[..i] + [target];
      }
      assert targets[..|targets|] == targets;
    }

    /** While jobs are incomplete and none is running, some queue is not empty. */
    lemma SomethingQueued()
      requires Valid() && !AllTerminal(items, status) && TotalLen(running) == 0
      ensures HeadWeights(targets, queued) > 0
    {
      hide Graph, Placed, Ready, TotalLen, HeadWeights;
      NothingRuns(items, status, Here());
    }

    /** Main theorem: however the interrupt flag and the status timer behave, a run from the start ends; then every
        job has a final status, reached along a legal history, and there is a reason for each: its verdict if it was
        launched, and K if it was not allowed to run, its launch failed, a failed launch cancelled it, or there was an
        interrupt. Without an interrupt the jobs told to stop are those whose launch failed; if none fails, the verdicts
        alone settle every status. */
    method Run(stop: nat -> bool, timer: nat -> bool) returns (results: Statuses)
      requires Core({}) && status == map[] && trace == []
      modifies this, launchers
      ensures Valid() && results == status
      ensures results.Keys == set j | j in items
      ensures forall j :: j in items ==> Final(results[j])
      ensures Legal(items, trace) && Replay(trace) == results
      ensures launchers.launched == Dispatched(trace)
      ensures Explained(items, launchers.verdict, launchers.starts, launchers.launched, Stops(stop), results)
      ensures !Stops(stop) ==>
                launchers.killed == old(launchers.killed) + Failures(launchers.launched, launchers.starts)
      ensures !Stops(stop) && (forall j :: launchers.starts(j)) ==>
                forall j :: j in items ==> results[j] == Expected(items, launchers.verdict, j)
    {
      hide Static, Cursors, Placed, Recorded, Ready, Potential, Explains, Failures, AllTerminal, StopsBefore,
           Stops, Legal, Replay, Dispatched, Expected, DispatchOf, Polls, Answered, Dispatches, Flat, KilledOff, DueNow;
      RecordedNow({});
      NothingLaunched();
      ghost var killed0 := launchers.killed;
      Begin();
      NeverStopped(stop);
      var round := 0;
      var done := false;
      while !done
        invariant Valid()
        invariant done ==> AllTerminal(items, status)
        invariant Explains(StopsBefore(stop, round))
        invariant !StopsBefore(stop, round) ==> launchers.killed == killed0 + FailuresNow()
        decreases Potential(), !done
      {
        ghost var mid, jobs;
        ghost var launched := launchers.launched;
        done, mid, jobs := Turn(stop(round), timer(round));
        FailuresJoin(launched, jobs, launchers.starts);
        StopsMore(stop, round);
        round := round + 1;
      }
      results := status;
      Results();
      Explanation(stop, round);
    }

    /** Why the jobs have the statuses they have. */
    ghost predicate Explains(interrupted: bool)
      reads this`status, launchers`launched
    {
      Explained(items, launchers.verdict, launchers.starts, launchers.launched, interrupted, status)
    }

    ghost function FailuresNow(): seq<Job>
      reads launchers`launched
    {
      Failures(launchers.launched, launchers.starts)
    }

    lemma NothingLaunched()
      requires Core({}) && status == map[] && trace == []
      ensures launchers.launched == [] && FailuresNow() == []
    {
      hide Static, Cursors, Placed;
    }

    /** What the explanations say once the run is over. */
    lemma Explanation(stop: nat -> bool, round: nat)
      requires Valid() && AllTerminal(items, status) && Explains(StopsBefore(stop, round))
      ensures Explained(items, launchers.verdict, launchers.starts, launchers.launched, Stops(stop), status)
      ensures !Stops(stop) ==> !StopsBefore(stop, round)
      ensures !Stops(stop) && (forall j :: launchers.starts(j)) ==>
                forall j :: j in items ==> j in status && status[j] == Expected(items, launchers.verdict, j)
    {
      hide Core, Ready, Excused, MayRun, AllTerminal, Expected;
      if !Stops(stop) && forall j :: launchers.starts(j) {
        forall j | j in items ensures j in status && status[j] == Expected(items, launchers.verdict, j) {
          AsExpected(items, launchers.verdict, launchers.starts, launchers.launched, status, j);
        }
      }
    }

    /** Queues the jobs of the first target. */
    method Begin()
      requires Core({}) && status == map[]
      modifies this`status, this`queued, this`scheduled, this`trace
      ensures Valid() && FirstQueued(items, PoolNow())
      ensures old(trace) <= trace && forall b :: Explains(b)
    {
      hide Core, Ready, QueueOf, TargetsOf;
      FirstReady();
      EnqueueSuccessors(None, {});
      QueuesAreRight();
    }

    lemma QueuesAreRight()
      requires Valid()
      ensures QueuesHold(items, PoolNow())
    {
      hide Static, Cursors, Recorded, Ready, WaitBox, SetBox, TargetsOf, QueueOf;
      QueuedKeys();
      HasKeys({});
      TargetsOfSpec(items);
      forall t | t in queued ensures QueueOf(items, status, t, queued[t]) { QueuesAreJobs(t); }
      forall j | j in status && status[j] == Q ensures j.target in queued && j in queued[j.target] {
        StartedIsItem(j);
        assert j in At(items, status, j.target, Q);
      }
    }

    lemma FirstReady()
      requires Core({}) && status == map[]
      ensures TargetsOf(items) != []
      ensures forall j :: j in Ready(items, status) <==> j in items && j.target == TargetsOf(items)[0]
      ensures forall j :: j in Ready(items, status) ==> Succeeds(None, j)
    {
      hide Placed, Recorded, Cursors;
      FirstTargetReady(items);
    }

    lemma Results()
      requires Valid() && AllTerminal(items, status)
      ensures status.Keys == set j | j in items
      ensures forall j :: j in items ==> Final(status[j])
      ensures Legal(items, trace) && Replay(trace) == status && launchers.launched == Dispatched(trace)
    {
      hide Static, Cursors, Placed, Ready, Legal, Replay, Dispatched;
      assert Recorded(items, trace, status, launchers.launched);
      Since(trace, status, launchers.launched, {});
    }

    /** One turn of the main loop: it finds everything complete or leaves less to do. Without an interrupt it is a round
        of polls, which leaves mid, followed by a pass, which launches some jobs; with one it kills what is not complete
        and does nothing more. */
    method Turn(stopNow: bool, timer: bool) returns (done: bool, ghost mid: Pool, ghost jobs: seq<Job>)
      requires Valid()
      modifies this`status, this`queued, this`scheduled, this`running, this`passed, this`failed, this`killed
      modifies this`lastTargetPolled, this`lastItemPolled, this`trace, launchers
      ensures Valid() && old(trace) <= trace
      ensures Potential() <= old(Potential()) && (!done ==> Potential() < old(Potential()))
      ensures if stopNow then
                && done && AllTerminal(items, status) && KilledOff(old(status), status) && jobs == []
                && launchers.killed == old(launchers.killed) + Flat(targets, old(running))
              else
                && Polls(old(status), mid.status, launchers.verdict)
                && Answered(old(status), old(launchers.pending), old(launchers.polled),
                            mid.status, launchers.pending, launchers.polled)
                && Dispatches(items, mid.status, status, launchers.starts)
                && PoolNow() == DispatchOf(items, launchers.starts, maxParallel, mid)
                && launchers.killed == old(launchers.killed) + Failures(jobs, launchers.starts)
                && (done <==> AllTerminal(items, status) &&
                              (timer || TotalLen(old(running)) == 0 || mid.status != old(status)))
      ensures launchers.launched == old(launchers.launched) + jobs
      ensures forall b :: old(Explains(b)) ==> Explains(b || stopNow)
      // Every running job comes nearer to being polled.
      ensures !stopNow ==> forall j, r: nat :: old(DueNow(j, r)) ==>
                Asked(j, old(launchers.polled), launchers.polled) || (r > 0 && DueNow(j, r - 1))
    {
      hide Core, Ready, TotalLen, Work, Pending, Recorded, AllTerminal, Due, Asked, Explains, Polls, Answered,
           Dispatches, DispatchOf, KilledOff, Failures, Flat;
      NoFailures(launchers.starts);
      RunningNow();
      if stopNow { Interrupt(); }
      NothingGained(old(trace), old(status), old(launchers.launched));
      done, mid, jobs := PollAndDispatch(timer);
    }

    /** The rest of a turn, without regard to interrupts. */
    method PollAndDispatch(timer: bool) returns (done: bool, ghost mid: Pool, ghost jobs: seq<Job>)
      requires Valid()
      modifies this`status, this`queued, this`scheduled, this`running, this`passed, this`failed, this`killed
      modifies this`lastTargetPolled, this`lastItemPolled, this`trace, launchers
      ensures Valid() && old(trace) <= trace
      ensures Potential() <= old(Potential()) && (!done ==> Potential() < old(Potential()))
      ensures old(AllTerminal(items, status)) ==>
                done && AllTerminal(items, status) && status == old(status) && jobs == []
      ensures Polls(old(status), mid.status, launchers.verdict)
      ensures Answered(old(status), old(launchers.pending), old(launchers.polled),
                       mid.status, launchers.pending, launchers.polled)
      ensures Dispatches(items, mid.status, status, launchers.starts)
      ensures PoolNow() == DispatchOf(items, launchers.starts, maxParallel, mid)
      ensures launchers.launched == old(launchers.launched) + jobs
      ensures launchers.killed == old(launchers.killed) + Failures(jobs, launchers.starts)
      ensures done <==> AllTerminal(items, status) &&
                        (timer || TotalLen(old(running)) == 0 || mid.status != old(status))
      ensures forall b :: old(Explains(b)) ==> Explains(b)
      ensures forall j, r: nat :: old(DueNow(j, r)) ==>
                Asked(j, old(launchers.polled), launchers.polled) || (r > 0 && DueNow(j, r - 1))
    {
      hide Core, Ready, TotalLen, Potential, AllTerminal, Due, Asked, Explains, Polls, Answered, Dispatches, DispatchOf,
           Failures;
      Idle();
      var changed := PollStep();
      mid := PoolNow();
      if !changed { changed := timer; }
      jobs := DispatchStep();
      done := false;
      if changed { done := CheckIfDone(); }
    }

    /** What an interrupt does before the turn goes on. */
    method Interrupt()
      requires Valid()
      modifies this`status, this`queued, this`scheduled, this`running, this`killed, this`trace, launchers`killed
      ensures Valid() && AllTerminal(items, status) && KilledOff(old(status), status)
      ensures old(trace) <= trace
      ensures launchers.killed == old(launchers.killed) + Flat(targets, old(running))
      ensures forall b :: old(Explains(b)) ==> Explains(true)
    {
      hide Core, Ready, AllTerminal, Explained, KilledOff, Flat;
      AllSettled({});
      Kill();
      forall b | old(Explains(b)) ensures Explains(true) {
        ExplainedKilled(items, launchers.verdict, launchers.starts, launchers.launched, b, old(status), status);
      }
    }

    lemma NothingGained(before: seq<Event>, s: Statuses, ds: seq<Job>)
      requires Valid() && Recorded(items, before, s, ds) && before <= trace
      ensures Potential() <= Work(items, s) + Pending(items, launchers.pending)
      ensures AllTerminal(items, s) ==> AllTerminal(items, status)
    {
      hide Core, Work, Pending, AllTerminal;
      AllDoneStays(before, s, ds);
      WorkSpent(before, s, ds, {});
    }

    /** The polling of a turn. */
    method PollStep() returns (changed: bool)
      requires Valid()
      modifies this`status, this`queued, this`scheduled, this`running, this`passed, this`failed, this`killed
      modifies this`lastTargetPolled, this`lastItemPolled, this`trace, launchers`pending, launchers`polled
      ensures Valid() && old(trace) <= trace && Potential() <= old(Potential())
      ensures old(AllTerminal(items, status)) ==> AllTerminal(items, status)
      ensures Polls(old(status), status, launchers.verdict)
      ensures Answered(old(status), old(launchers.pending), old(launchers.polled),
                       status, launchers.pending, launchers.polled)
      ensures changed <==> TotalLen(old(running)) == 0 || status != old(status)
      ensures if TotalLen(old(running)) > 0 then Potential() < old(Potential())
              else TotalLen(running) == 0 && status == old(status)
      ensures forall b :: old(Explains(b)) ==> Explains(b)
      ensures forall j, r: nat :: old(DueNow(j, r)) ==>
                Asked(j, old(launchers.polled), launchers.polled) || (r > 0 && DueNow(j, r - 1))
    {
      hide Core, Ready, TotalLen, Potential, Recorded, AllTerminal, Polls, Answered, Due, Asked, TurnsCome, Explained,
           AllDepsDone, Dispatches;
      RunningNow();
      RunningKeys();
      AllSettled({});
      changed := Poll();
      AllDoneStays(old(trace), old(status), old(launchers.launched));
      DueAfterPoll(old(status), old(running), old(lastItemPolled), old(lastTargetPolled), old(launchers.polled));
      SameHistory(old(trace), old(status), old(launchers.launched));
      forall b | old(Explains(b)) ensures Explains(b) {
        ExplainedPolls(items, launchers.verdict, launchers.starts, launchers.launched, b, old(status), status);
      }
    }

    lemma SameHistory(before: seq<Event>, s: Statuses, ds: seq<Job>)
      requires Valid() && Recorded(items, before, s, ds) && before <= trace
      ensures trace == before <==> status == s
      ensures status == s ==> launchers.launched == ds
    {
      hide Static, Cursors, Placed, Ready, Work;
      WorkSpent(before, s, ds, {});
    }

    /** The dispatching of a turn. */
    method DispatchStep() returns (ghost jobs: seq<Job>)
      requires Valid()
      modifies this`status, this`queued, this`scheduled, this`running, this`killed, this`trace
      modifies launchers`launched, launchers`killed
      ensures Valid() && old(trace) <= trace && Potential() <= old(Potential())
      ensures old(AllTerminal(items, status)) ==> AllTerminal(items, status) && status == old(status) && jobs == []
      ensures Dispatches(items, old(status), status, launchers.starts)
      ensures PoolNow() == DispatchOf(items, launchers.starts, maxParallel, old(PoolNow()))
      ensures launchers.launched == old(launchers.launched) + jobs
      ensures launchers.killed == old(launchers.killed) + Failures(jobs, launchers.starts)
      ensures forall b :: old(Explains(b)) ==> Explains(b)
      ensures old(!AllTerminal(items, status)) && TotalLen(old(running)) == 0 ==> Potential() < old(Potential())
      ensures forall j, r: nat :: old(DueNow(j, r)) ==> DueNow(j, r)
    {
      hide Core, Ready, TotalLen, HeadWeights, Quotas, Sum, Fair, Launches, Work, Pending, Recorded, AllTerminal,
           Dispatches, Due, ListsGrow, ListBox, DispatchOf, PassFrom, LaunchesNow, AmpleNow, FillsQueue, RunningJobs,
           Launched, Weights, Failures, AllDepsDone, Explained;
      RunningNow();
      RunningKeys();
      RunningBox();
      AllSettled({});
      if !AllTerminal(items, status) && TotalLen(running) == 0 { SomethingQueued(); }
      ghost var plan := Dispatch();
      DueAfterDispatch(old(status), old(running));
      jobs := Launches(plan);
      WorkSpent(old(trace), old(status), old(launchers.launched), {});
      AllDoneStays(old(trace), old(status), old(launchers.launched));
      SameHistory(old(trace), old(status), old(launchers.launched));
      RunningLaunched();
      forall b | old(Explains(b)) ensures Explains(b) {
        ExplainedDispatches(items, launchers.verdict, launchers.starts, old(launchers.launched), b,
                            old(status), status, launchers.launched);
      }
    }

    /** Every running job was launched. */
    lemma RunningLaunched()
      requires Valid()
      ensures forall j :: j in status && status[j] == D ==> j in launchers.launched
    {
      hide Static, Cursors, Placed, Ready, Legal, Replay, Dispatched;
      forall j | j in status && status[j] == D ensures j in launchers.launched {
        RunningWasDispatched(items, trace, j);
      }
    }

    /** Within r turns j is polled, if there is no interrupt. */
    ghost predicate DueNow(j: Job, r: nat)
      reads this`status, this`running, this`targets, this`lastItemPolled, this`lastTargetPolled
    {
      Due(items, status, targets, running, lastItemPolled, lastTargetPolled, j, r)
    }

    /** Every running job is polled within as many turns as its target has jobs times the number of targets. */
    lemma DueInTurn(j: Job)
      requires Valid() && j in status && status[j] == D
      ensures DueNow(j, WaitLimit(items, targets, j.target))
    {
      hide Core, Ready, Due, WaitLimit, ListBox;
      HasKeys({});
      RunningKeys();
      RunningBox();
      StartedIsItem(j);
      TargetIsListed(j);
      assert HasKey(Here(), j.target);
      OnItsList(items, status, running, j);
      var k :| 0 <= k < |targets| && targets[k] == j.target;
      DueInTime(items, status, targets, running, lastItemPolled, lastTargetPolled, k, j);
    }

    lemma TargetIsListed(j: Job)
      requires Valid() && j in items
      ensures j.target in targets
    {
      hide Graph, Cursors, Recorded, Placed, Ready, TargetsOf;
      GraphTargets(items);
    }

    lemma RunningBox()
      requires Valid()
      ensures ListBox(items, status, running, D, {})
    {
      hide Static, Cursors, Recorded, Ready, WaitBox, SetBox, ListBox;
    }

    lemma DueAfterPoll(s: Statuses, was: Lists, marks: map<Target, int>, last: int, log: seq<Job>)
      requires Valid() && Polls(s, status, launchers.verdict)
      requires TotalLen(was) > 0 ==>
                 TurnsCome(targets, was, marks, last, log, running, lastItemPolled, lastTargetPolled, launchers.polled,
                           true)
      ensures forall j, r: nat :: Due(items, s, targets, was, marks, last, j, r) ==>
                Asked(j, log, launchers.polled) || (r > 0 && DueNow(j, r - 1))
    {
      hide Core, Ready, TotalLen, TurnsCome, Due, Polls;
      RunningKeys();
      PollsLaunchNothing(items, s, status, launchers.verdict);
      forall j, r: nat | Due(items, s, targets, was, marks, last, j, r)
        ensures Asked(j, log, launchers.polled) || (r > 0 && DueNow(j, r - 1))
      {
        DueMeansRunning(items, s, targets, was, marks, last, j, r);
        PollDue(items, s, targets, was, marks, last, log, status, running, lastItemPolled, lastTargetPolled,
                launchers.polled, j, r);
      }
    }

    lemma DueAfterDispatch(s: Statuses, was: Lists)
      requires Valid() && ListBox(items, s, was, D, {}) && ListsGrow(was, running)
      requires Dispatches(items, s, status, launchers.starts)
      ensures forall j, r: nat :: Due(items, s, targets, was, lastItemPolled, lastTargetPolled, j, r) ==> DueNow(j, r)
    {
      hide Core, Ready, Due, Unlaunched, MayRun, At;
      RunningBox();
      forall u | u in was
        ensures u in running && was[u] <= running[u]
        ensures |running[u]| - |was[u]| + |Unlaunched(items, status, u)| <= |Unlaunched(items, s, u)|
      {
        JoinedFromUnlaunched(items, s, was[u], status, running[u], u);
      }
      forall j, r: nat | Due(items, s, targets, was, lastItemPolled, lastTargetPolled, j, r) ensures DueNow(j, r) {
        DispatchDue(items, s, targets, was, lastItemPolled, lastTargetPolled, status, running, j, r);
      }
    }

    lemma AllDoneStays(before: seq<Event>, s: Statuses, ds: seq<Job>)
      requires Valid() && Recorded(items, before, s, ds) && before <= trace
      ensures AllTerminal(items, s) ==> AllTerminal(items, status) && status == s
    {
      hide Static, Cursors, Placed, Recorded, Ready;
      Since(before, s, ds, {});
      Since(trace, status, launchers.launched, {});
    }

    lemma Idle()
      requires Valid()
      ensures AllTerminal(items, status) ==> TotalLen(running) == 0
    {
      hide Static, Cursors, Placed, Recorded, Ready, TotalLen;
      if AllTerminal(items, status) { DoneMeansIdle(items, status, Here()); }
    }
  }
}
