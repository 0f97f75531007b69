/** A run in which dispatching exceeds the number of jobs allowed to run at a time. */
module SchedulerExample {
  import opened Wrappers
  import opened SchedulerProtocol
  import opened SchedulerBoxes
  import opened SchedulerPlaces
  import opened SchedulerQuotas
  import opened SchedulerPass
  import opened SchedulerModel
  import opened SchedulerLate
  import opened SchedulerRuns

  // ---- any run, event by event ----

  /** The containers at the start of any run. */
  lemma InitialPlaces(items: seq<Job>) returns (p: Places)
    ensures Placed(items, map[], {}, p)
    ensures forall t :: t in TargetsOf(items) ==> t in p.queued && p.queued[t] == []
    ensures forall t :: t in TargetsOf(items) ==> t in p.running && p.running[t] == []
  {
    hide WaitBox, TargetsOf;
    var w := InitialWaiting(items, |items|);
    assert items[..|items|] == items;
    var ts := TargetsOf(items);
    var none: Lists, empty: Sets := map t | t in ts :: [], map t | t in ts :: {};
    p := Places(w, none, none, empty, empty, empty);
    PlacedAtStart(items, p);
  }

  lemma {:induction false} InitialWaiting(items: seq<Job>, n: nat) returns (w: Waiting)
    requires n <= |items|
    ensures WaitBox(items[..n], map[], w)
  {
    hide WaitBox, AddWaiting;
    if n == 0 {
      NothingWaits();
      assert items[..0] == [];
      w := map[];
    } else {
      var before := InitialWaiting(items, n - 1);
      AddWaitingKeeps(items[..n - 1], before, items[n - 1]);
      assert items[..n] == items[..n - 1] + [items[n - 1]];
      w := AddWaiting(before, items[n - 1]);
    }
  }

  /** A state of a run: its history, statuses and containers. */
  datatype State = State(trace: seq<Event>, status: Statuses, places: Places)

  ghost predicate Attained(items: seq<Job>, st: State) {
    Undisturbed(items, st.trace) && Replay(st.trace) == st.status && Placed(items, st.status, {}, st.places)
  }

  ghost predicate NextState(a: State, e: Event, b: State) {
    b.trace == a.trace + [e] && b.status == a.status[e.job := e.status]
  }

  lemma QueueNext(items: seq<Job>, a: State, x: Job) returns (b: State)
    requires Attained(items, a) && x in items && x !in a.status && DepsDone(items, a.status, x)
    ensures Attained(items, b) && NextState(a, Event(x, Q), b)
    ensures x.target in a.places.queued && b.places.queued == Append(a.places.queued, x)
    ensures b.places.running == a.places.running
  {
    hide Placed, Undisturbed, DepsDone;
    UndisturbedMore(items, a.trace, Event(x, Q));
    Queue(items, a.status, {}, a.places, x);
    b := State(a.trace + [Event(x, Q)], a.status[x := Q], Queued(a.places, x));
  }

  lemma StartNext(items: seq<Job>, a: State, x: Job) returns (b: State)
    requires Attained(items, a) && Ready(items, a.status) == {} && x in items && MayRun(items, a.status, x)
    requires x.target in a.places.queued && a.places.queued[x.target] != [] && a.places.queued[x.target][0] == x
    ensures Attained(items, b) && NextState(a, Event(x, D), b) && Ready(items, b.status) == {}
    ensures b.places.queued == a.places.queued[x.target := a.places.queued[x.target][1..]]
    ensures x.target in a.places.running && b.places.running == Append(a.places.running, x)
  {
    hide Placed, Undisturbed, MayRun, Ready;
    var t := x.target;
    Pop(items, a.status, {}, a.places, t);
    UndisturbedMore(items, a.trace, Event(x, D));
    ReadyAfterActive(items, a.status, x, D);
    var p := a.places.(queued := SetList(a.places.queued, t, a.places.queued[t][1..]));
    assert {} + {x} == {x} && {x} - {x} == {};
    Start(items, a.status, {x}, p, x);
    b := State(a.trace + [Event(x, D)], a.status[x := D], Dispatching(p, x));
  }

  lemma FinishNext(items: seq<Job>, a: State, x: Job, st: Status) returns (b: State)
    requires Attained(items, a) && Ready(items, a.status) == {} && (st == P || st == F)
    requires x.target in a.places.running && a.places.running[x.target] == [x]
    ensures Attained(items, b) && NextState(a, Event(x, st), b)
    ensures b.places.running == a.places.running[x.target := []] && b.places.queued == a.places.queued
  {
    hide Placed, Undisturbed, Ready;
    Finish(items, a.status, {}, a.places, x, 0, st);
    UndisturbedMore(items, a.trace, Event(x, st));
    assert RemoveAt([x], 0) == [];
    b := State(a.trace + [Event(x, st)], a.status[x := st], Finished(a.places, x, 0, st));
  }

  // ---- two configurations ----

  const BUILD: Target := "build"
  const RUN: Target := "run"
  const COV: Target := "cov_merge"

  /** Configuration 0 has two builds, a run of each, and a merge; configuration 1 one of each. */
  const BUILD0 := Job("default", BUILD, 0, [], true, 5)
  const BUILD1 := Job("fast", BUILD, 0, [], true, 5)
  const BUILD2 := Job("other", BUILD, 1, [], true, 5)
  const RUN0 := Job("smoke", RUN, 0, [BUILD0], true, 1)
  const RUN1 := Job("stress", RUN, 0, [BUILD1], true, 1)
  const RUN2 := Job("csr", RUN, 1, [BUILD2], true, 1)
  const MERGE0 := Job("merge", COV, 0, [RUN0, RUN1], false, 10)
  const MERGE1 := Job("merge", COV, 1, [RUN2], false, 10)

  const ITEMS := [BUILD0, BUILD1, RUN0, RUN1, MERGE0, BUILD2, RUN2, MERGE1]

  lemma AllDifferent()
    ensures BUILD0 != BUILD1 && BUILD0 != BUILD2 && BUILD1 != BUILD2
    ensures RUN0 != RUN1 && RUN0 != RUN2 && RUN1 != RUN2 && MERGE0 != MERGE1
    ensures |BUILD| == 5 && |RUN| == 3 && |COV| == 9
  {
    assert |BUILD0.name| == 7 && |BUILD1.name| == 4 && |RUN0.name| == 5 && |RUN1.name| == 6;
  }

  lemma FirstTargets()
    ensures TargetsOf(ITEMS[..5]) == [BUILD, RUN, COV]
  {
    hide TargetsOf;
    NothingWaits();
    AllDifferent();
    assert ITEMS[..1] == [] + [BUILD0] && ITEMS[..2] == ITEMS[..1] + [BUILD1] && ITEMS[..3] == ITEMS[..2] + [RUN0];
    assert ITEMS[..4] == ITEMS[..3] + [RUN1] && ITEMS[..5] == ITEMS[..4] + [MERGE0];
    TargetsOfMore([], BUILD0);
    TargetsOfMore(ITEMS[..1], BUILD1);
    TargetsOfMore(ITEMS[..2], RUN0);
    TargetsOfMore(ITEMS[..3], RUN1);
    TargetsOfMore(ITEMS[..4], MERGE0);
  }

  lemma ItemTargets()
    ensures TargetsOf(ITEMS) == [BUILD, RUN, COV]
  {
    hide TargetsOf;
    FirstTargets();
    AllDifferent();
    assert ITEMS[..6] == ITEMS[..5] + [BUILD2] && ITEMS[..7] == ITEMS[..6] + [RUN2];
    assert ITEMS == ITEMS[..7] + [MERGE1];
    TargetsOfMore(ITEMS[..5], BUILD2);
    TargetsOfMore(ITEMS[..6], RUN2);
    TargetsOfMore(ITEMS[..7], MERGE1);
  }

  lemma ItemDeps(j: Job)
    requires j in ITEMS
    ensures j.weight > 0 && j.cfg == (if j == BUILD2 || j == RUN2 || j == MERGE1 then 1 else 0)
    ensures j == BUILD0 || j == BUILD1 || j == BUILD2 ==> j.target == BUILD && j.deps == []
    ensures j == RUN0 ==> j.target == RUN && j.deps == [BUILD0]
    ensures j == RUN1 ==> j.target == RUN && j.deps == [BUILD1]
    ensures j == RUN2 ==> j.target == RUN && j.deps == [BUILD2]
    ensures j == MERGE0 ==> j.target == COV && j.deps == [RUN0, RUN1]
    ensures j == MERGE1 ==> j.target == COV && j.deps == [RUN2]
    ensures j == BUILD0 || j == BUILD1 || j == BUILD2 || j == RUN0 || j == RUN1 || j == RUN2
         || j == MERGE0 || j == MERGE1
  {
    AllDifferent();
  }

  lemma ItemIndex()
    ensures var ts := TargetsOf(ITEMS);
            && ts == [BUILD, RUN, COV] && Index(ts, BUILD) == 0 && Index(ts, RUN) == 1 && Index(ts, COV) == 2
  {
    hide TargetsOf;
    AllDifferent();
    ItemTargets();
    var ts := TargetsOf(ITEMS);
    IndexOfDistinct(ts, 0);
    IndexOfDistinct(ts, 1);
    IndexOfDistinct(ts, 2);
  }

  lemma AllItems()
    ensures BUILD0 in ITEMS && BUILD1 in ITEMS && BUILD2 in ITEMS && RUN0 in ITEMS && RUN1 in ITEMS && RUN2 in ITEMS
    ensures MERGE0 in ITEMS && MERGE1 in ITEMS
    ensures BUILD0.cfg == BUILD1.cfg == RUN0.cfg == RUN1.cfg == MERGE0.cfg == 0
    ensures BUILD2.cfg == RUN2.cfg == MERGE1.cfg == 1
  {
  }

  lemma ItemGraph()
    ensures Graph(ITEMS)
  {
    hide InPlace, HaveDependencies, HaveDependents;
    ItemsInPlace();
    ItemsHaveDependencies();
    ItemsHaveDependents();
    forall j | j in ITEMS ensures j.weight > 0 { ItemDeps(j); }
  }

  lemma ItemsInPlace()
    ensures InPlace(ITEMS)
  {
    hide TargetsOf, Index, ITEMS, BUILD0, BUILD1, BUILD2, RUN0, RUN1, RUN2, MERGE0, MERGE1;
    ItemIndex();
    AllItems();
    AllDifferent();
    forall j, d | j in ITEMS && d in j.deps && d in ITEMS
      ensures d.cfg == j.cfg && Follows(TargetsOf(ITEMS), d.target, j.target)
    {
      ItemDeps(j);
      ItemDeps(d);
    }
  }

  lemma ItemsHaveDependencies()
    ensures HaveDependencies(ITEMS)
  {
    hide TargetsOf, Index, ITEMS, BUILD0, BUILD1, BUILD2, RUN0, RUN1, RUN2, MERGE0, MERGE1;
    ItemIndex();
    AllItems();
    AllDifferent();
    forall j | j in ITEMS && j.target != BUILD ensures exists d :: d in j.deps && d in ITEMS {
      ItemDeps(j);
      assert j.deps[0] in j.deps && j.deps[0] in ITEMS;
    }
  }

  lemma ItemsHaveDependents()
    ensures HaveDependents(ITEMS)
  {
    hide TargetsOf, Index, ITEMS, BUILD0, BUILD1, BUILD2, RUN0, RUN1, RUN2, MERGE0, MERGE1;
    ItemIndex();
    AllItems();
    AllDifferent();
    forall j | j in ITEMS && j.target != COV ensures exists s :: s in ITEMS && j in s.deps {
      ItemDeps(j);
      var s := if j == BUILD0 then RUN0 else if j == BUILD1 then RUN1 else if j == BUILD2 then RUN2
               else if j == RUN2 then MERGE1 else MERGE0;
      ItemDeps(s);
      assert s in ITEMS && j in s.deps;
    }
  }

  /** When no job is ready. */
  lemma NoneReady(s: Statuses)
    requires BUILD0 in s && BUILD1 in s && BUILD2 in s
    requires Terminal(s, BUILD0) ==> RUN0 in s
    requires Terminal(s, BUILD1) ==> RUN1 in s
    requires Terminal(s, BUILD2) ==> RUN2 in s
    requires Terminal(s, RUN0) && Terminal(s, RUN1) ==> MERGE0 in s
    requires Terminal(s, RUN2) ==> MERGE1 in s
    ensures Ready(ITEMS, s) == {}
  {
    hide Terminal, ITEMS, BUILD0, BUILD1, BUILD2, RUN0, RUN1, RUN2, MERGE0, MERGE1;
    AllItems();
    forall j | j in ITEMS && DepsDone(ITEMS, s, j) ensures j in s {
      ItemDeps(j);
      assert forall d :: d in j.deps ==> d in ITEMS;
      assert |j.deps| > 0 ==> Terminal(s, j.deps[0]);
      assert |j.deps| > 1 ==> Terminal(s, j.deps[1]);
    }
  }

  /** The queues and running lists of builds and runs; no merge is queued or running. */
  ghost predicate Lists4(st: State, builds: seq<Job>, runs: seq<Job>, building: seq<Job>, going: seq<Job>) {
    && Attained(ITEMS, st)
    && st.places.queued == BoxOf(builds, runs) && st.places.running == BoxOf(building, going)
  }

  function BoxOf(builds: seq<Job>, runs: seq<Job>): Lists {
    map[BUILD := builds, RUN := runs, COV := []]
  }

  lemma BoxMeans(builds: seq<Job>, runs: seq<Job>, other: seq<Job>)
    ensures var m := BoxOf(builds, runs);
            && BUILD in m && m[BUILD] == builds && m[BUILD := other] == BoxOf(other, runs)
            && RUN in m && m[RUN] == runs && m[RUN := other] == BoxOf(builds, other)
  {
    AllDifferent();
  }

  lemma AtStart() returns (st: State)
    ensures Lists4(st, [], [], [], []) && st.status == map[]
  {
    hide Placed;
    var p := InitialPlaces(ITEMS);
    ItemTargets();
    PlacedTargets(ITEMS, p);
    st := State([], map[], p);
  }

  lemma PlacedTargets(items: seq<Job>, p: Places)
    requires Placed(items, map[], {}, p)
    ensures forall t :: t in p.queued <==> t in TargetsOf(items)
    ensures forall t :: t in p.running <==> t in TargetsOf(items)
  {
  }

  /** A ready job is queued. */
  lemma Enqueued(a: State, x: Job, builds: seq<Job>, runs: seq<Job>, builds': seq<Job>, runs': seq<Job>)
    returns (b: State)
    requires Lists4(a, builds, runs, [], []) && x in ITEMS && x !in a.status && DepsDone(ITEMS, a.status, x)
    requires if x.target == BUILD then builds' == builds + [x] && runs' == runs
             else x.target == RUN && builds' == builds && runs' == runs + [x]
    ensures b.status == a.status[x := Q] && Lists4(b, builds', runs', [], [])
  {
    hide Attained, ITEMS, DepsDone, BoxOf;
    BoxMeans(builds, runs, builds');
    BoxMeans(builds, runs, runs');
    b := QueueNext(ITEMS, a, x);
  }

  /** The first build goes from its queue to running, and completes. */
  lemma Builds(a: State, x: Job, all: seq<Job>, builds: seq<Job>, runs: seq<Job>, st: Status) returns (b: State)
    requires Lists4(a, all, runs, [], []) && all == [x] + builds
    requires x in ITEMS && x.target == BUILD && x.needsAll && x.deps == []
    requires Ready(ITEMS, a.status) == {} && (st == P || st == F)
    ensures b.status == a.status[x := D][x := st] && Lists4(b, builds, runs, [], [])
  {
    hide Attained, ITEMS, Ready, MayRun, BoxOf;
    FreeMayRun(a.status, x);
    BoxMeans(all, runs, builds);
    BoxMeans([], runs, [x]);
    BoxMeans([x], runs, []);
    BoxMeans([], [], [x]);
    BoxMeans([x], [], []);
    var m := StartNext(ITEMS, a, x);
    assert all[1..] == builds && [] + [x] == [x];
    b := FinishNext(ITEMS, m, x, st);
  }

  lemma FreeMayRun(s: Statuses, x: Job)
    requires x.needsAll && x.deps == []
    ensures MayRun(ITEMS, s, x)
  {
  }

  /** The first run goes from its queue to running, and passes. */
  lemma Runs(a: State, x: Job, all: seq<Job>, runs: seq<Job>) returns (b: State)
    requires Lists4(a, [], all, [], []) && all == [x] + runs
    requires x in ITEMS && x.target == RUN && MayRun(ITEMS, a.status, x)
    requires Ready(ITEMS, a.status) == {}
    ensures b.status == a.status[x := D][x := P] && Lists4(b, [], runs, [], [])
  {
    hide Attained, ITEMS, Ready, MayRun, BoxOf;
    BoxMeans([], all, runs);
    BoxMeans([], [], [x]);
    BoxMeans([], [x], []);
    var m := StartNext(ITEMS, a, x);
    assert all[1..] == runs && [] + [x] == [x];
    b := FinishNext(ITEMS, m, x, P);
  }

  lemma BuildsAreFree()
    ensures BUILD0.target == BUILD1.target == BUILD2.target == BUILD
    ensures forall s :: DepsDone(ITEMS, s, BUILD0) && DepsDone(ITEMS, s, BUILD1) && DepsDone(ITEMS, s, BUILD2)
  {
  }

  lemma AllBuildsQueued() returns (st: State)
    ensures Lists4(st, [BUILD0, BUILD1, BUILD2], [], [], [])
    ensures st.status == map[BUILD0 := Q, BUILD1 := Q, BUILD2 := Q] && Ready(ITEMS, st.status) == {}
  {
    hide Lists4, Ready, ITEMS, DepsDone, BUILD0, BUILD1, BUILD2;
    BuildsAreFree();
    AllDifferent();
    AllItems();
    st := AtStart();
    st := Enqueued(st, BUILD0, [], [], [BUILD0], []);
    st := Enqueued(st, BUILD1, [BUILD0], [], [BUILD0, BUILD1], []);
    st := Enqueued(st, BUILD2, [BUILD0, BUILD1], [], [BUILD0, BUILD1, BUILD2], []);
    NoneReady(st.status);
  }

  lemma BuildsDone() returns (st: State)
    ensures Lists4(st, [], [RUN0, RUN1, RUN2], [], []) && Ready(ITEMS, st.status) == {}
    ensures st.status == map[BUILD0 := P, BUILD1 := F, BUILD2 := P, RUN0 := Q, RUN1 := Q, RUN2 := Q]
  {
    hide Lists4, Ready, ITEMS;
    AllDifferent();
    AllItems();
    st := AllBuildsQueued();
    st := Builds(st, BUILD0, [BUILD0, BUILD1, BUILD2], [BUILD1, BUILD2], [], P);
    st := Enqueued(st, RUN0, [BUILD1, BUILD2], [], [BUILD1, BUILD2], [RUN0]);
    NoneReady(st.status);
    st := Builds(st, BUILD1, [BUILD1, BUILD2], [BUILD2], [RUN0], F);
    st := Enqueued(st, RUN1, [BUILD2], [RUN0], [BUILD2], [RUN0, RUN1]);
    NoneReady(st.status);
    st := Builds(st, BUILD2, [BUILD2], [], [RUN0, RUN1], P);
    st := Enqueued(st, RUN2, [], [RUN0, RUN1], [], [RUN0, RUN1, RUN2]);
    NoneReady(st.status);
  }

  const BEFORE: Statuses := map[BUILD0 := P, BUILD1 := F, BUILD2 := P, RUN0 := P, RUN1 := Q, RUN2 := Q]
  const QUEUED: Lists := map[BUILD := [], RUN := [RUN1, RUN2], COV := []]

  /** A state that an undisturbed run with one job at a time comes to: nothing is running, and two runs are queued. */
  lemma BeforeDispatch() returns (st: State)
    ensures Attained(ITEMS, st) && st.status == BEFORE && st.places.queued == QUEUED
    ensures Ready(ITEMS, BEFORE) == {} && TotalLen(st.places.running) == 0
  {
    hide Lists4, Ready, ITEMS, Attained;
    AllDifferent();
    AllItems();
    st := BuildsDone();
    st := Runs(st, RUN0, [RUN0, RUN1, RUN2], [RUN1, RUN2]);
    assert st.status == BEFORE;
    NoneReady(st.status);
    ListsMean(st, [], [RUN1, RUN2], [], []);
    TotalLenZero(st.places.running);
  }

  lemma ListsMean(st: State, builds: seq<Job>, runs: seq<Job>, building: seq<Job>, going: seq<Job>)
    requires Lists4(st, builds, runs, building, going)
    ensures Attained(ITEMS, st)
    ensures st.places.queued == map[BUILD := builds, RUN := runs, COV := []]
    ensures st.places.running == map[BUILD := building, RUN := going, COV := []]
  {
  }

  // ---- the pass ----

  const TARGETS := [BUILD, RUN, COV]
  const STARTS: Job -> bool := j => true

  lemma OneWaits()
    ensures HeadWeights(TARGETS, QUEUED) == 1
  {
    hide HeadWeights;
    AllDifferent();
    NoHeads(QUEUED);
    assert TARGETS[..0] == [] && TARGETS[..3] == TARGETS;
    HeadWeightsMore(TARGETS, QUEUED, 0);
    HeadWeightsMore(TARGETS, QUEUED, 1);
    HeadWeightsMore(TARGETS, QUEUED, 2);
    assert HeadWeight(QUEUED, BUILD) == 0 && HeadWeight(QUEUED, RUN) == 1 && HeadWeight(QUEUED, COV) == 0;
  }

  lemma NoHeads(queued: Lists)
    ensures HeadWeights([], queued) == 0
  {
  }

  lemma SmallSums()
    ensures Sum([]) == 0 && Sum([1]) == 1 && Sum(Quotas(1, 1, [])) == 0
  {
    assert [1][..0] == [];
  }

  lemma TwoGrants()
    ensures Grant(1, 1, [], 1) == 1 && Grant(1, 1, [1], 10) == 10
  {
    hide *;
    SmallSums();
    RoundExact(1, 1);
    RoundExact(11, 1);
    QuotasTelescope(1, 1, [1]);
    GrantIs(1, 1, [], 1, 1, 0);
    GrantIs(1, 1, [1], 10, 11, 1);
  }

  const CANCELLED: Pool := Pool(BEFORE[RUN1 := K][MERGE0 := Q], map[BUILD := [], RUN := [RUN2], COV := [MERGE0]])

  /** Cancelling the second run leaves the merge of its configuration without outstanding dependencies. */
  lemma MergeFreed()
    ensures !MayRun(ITEMS, BEFORE, RUN1)
    ensures CancelTaken(ITEMS, Pool(BEFORE, QUEUED[RUN := [RUN2]]), RUN1) == CANCELLED
  {
    hide ITEMS, Successors, QueueAll, MayRun;
    AllDifferent();
    var s, p := BEFORE[RUN1 := K], Pool(BEFORE[RUN1 := K], QUEUED[RUN := [RUN2]]);
    OnlyMergeFollows(s);
    NoneQueuedYet(p);
    QueueAllMore(p, [], MERGE0);
    assert [] + [MERGE0] == [MERGE0];
    SecondMayNotRun();
  }

  lemma SecondMayNotRun()
    ensures !MayRun(ITEMS, BEFORE, RUN1)
  {
    AllDifferent();
    AllItems();
    assert RUN1.needsAll && BUILD1 in RUN1.deps;
  }

  lemma OnlyMergeFollows(s: Statuses)
    requires MERGE0 !in s && Terminal(s, RUN0) && Terminal(s, RUN1)
    ensures Successors(ITEMS, ITEMS, s, RUN1) == [MERGE0]
  {
    hide ITEMS, Successors, DepsDone;
    AllDifferent();
    AllItems();
    var l := Successors(ITEMS, ITEMS, s, RUN1);
    SuccessorsMembers(ITEMS, ITEMS, s, RUN1);
    SuccessorsDistinct(ITEMS, ITEMS, s, RUN1);
    MergeReady(s);
    assert RUN1 in MERGE0.deps;
    forall j | j in l ensures j == MERGE0 { ItemDeps(j); }
    OnlyOne(l, MERGE0);
  }

  lemma MergeReady(s: Statuses)
    requires Terminal(s, RUN0) && Terminal(s, RUN1)
    ensures DepsDone(ITEMS, s, MERGE0)
  {
  }

  lemma OnlyOne(l: seq<Job>, x: Job)
    requires Distinct(l) && x in l && forall j :: j in l ==> j == x
    ensures l == [x]
  {
    HoldsCount(l, {x});
    assert l[0] in l;
  }

  /** The turn of the runs: one is cancelled, and the other takes the slot. */
  lemma TurnOfRuns()
    ensures TargetTurn(ITEMS, STARTS, Pool(BEFORE, QUEUED), RUN, 1) ==
            (Pool(CANCELLED.status[RUN2 := D], CANCELLED.queued[RUN := []]), [RUN2])
  {
    hide ITEMS, MayRun, CancelTaken, LaunchInTurn;
    AllDifferent();
    var p, list := Pool(BEFORE, QUEUED), [RUN1, RUN2];
    MergeFreed();
    assert list[1..] == [RUN2] && [RUN2][1..] == [];
    TakeStep(ITEMS, p, RUN, list, 1);
    assert MayRun(ITEMS, CANCELLED.status, RUN2) by { RunMayRun(CANCELLED.status); }
    var popped := Pool(CANCELLED.status, CANCELLED.queued[RUN := []]);
    TakeStep(ITEMS, CANCELLED, RUN, [RUN2], 1);
    TakeEnds(ITEMS, popped, RUN, [], 0);
    JoinedEnd([RUN2], popped);
    LaunchesOne(popped.status, RUN2);
  }

  lemma RunMayRun(s: Statuses)
    requires BUILD2 in s && s[BUILD2] == P
    ensures MayRun(ITEMS, s, RUN2)
  {
  }

  lemma LaunchesOne(s: Statuses, x: Job)
    ensures LaunchInTurn(ITEMS, s, [x], STARTS) == s[x := D]
  {
    NoneLaunchedYet(ITEMS, s, STARTS);
    LaunchOneMore(ITEMS, s, [], STARTS, x);
    assert [] + [x] == [x];
  }

  const AFTER: Statuses := CANCELLED.status[RUN2 := D][MERGE0 := D]

  /** The turn of the merges, whose queue was empty: with a quota of ten, the merge is launched too. */
  lemma TurnOfMerges()
    ensures var p := Pool(CANCELLED.status[RUN2 := D], CANCELLED.queued[RUN := []]);
            TargetTurn(ITEMS, STARTS, p, COV, 10) == (Pool(AFTER, p.queued[COV := []]), [MERGE0])
  {
    hide ITEMS, MayRun, LaunchInTurn;
    AllDifferent();
    var p := Pool(CANCELLED.status[RUN2 := D], CANCELLED.queued[RUN := []]);
    var popped := Pool(p.status, p.queued[COV := []]);
    assert [MERGE0][1..] == [];
    assert MayRun(ITEMS, p.status, MERGE0) by { MergeMayRun(p.status); }
    TakeStep(ITEMS, p, COV, [MERGE0], 10);
    TakeEnds(ITEMS, popped, COV, [], 9);
    JoinedEnd([MERGE0], popped);
    LaunchesOne(popped.status, MERGE0);
  }

  lemma MergeMayRun(s: Statuses)
    requires RUN0 in s && s[RUN0] == P
    ensures MayRun(ITEMS, s, MERGE0)
  {
    assert RUN0 in MERGE0.deps && RUN0 in ITEMS;
  }

  lemma WholePass()
    ensures Pass(ITEMS, STARTS, TARGETS, 1, 1, 0, [], Pool(BEFORE, QUEUED)).0.status == AFTER
  {
    hide ITEMS, TargetTurn, Pass, Grant;
    AllDifferent();
    TwoGrants();
    TurnOfRuns();
    TurnOfMerges();
    var p := Pool(BEFORE, QUEUED);
    var q := Pool(CANCELLED.status[RUN2 := D], CANCELLED.queued[RUN := []]);
    var r := Pool(AFTER, q.queued[COV := []]);
    var one, two := [Share(RUN, 1, [RUN2])], [Share(RUN, 1, [RUN2]), Share(COV, 10, [MERGE0])];
    PassSkips(ITEMS, STARTS, TARGETS, 1, 1, 0, [], p);
    PassTurns(ITEMS, STARTS, TARGETS, 1, 1, 1, [], p);
    assert [] + [Share(RUN, 1, [RUN2])] == one && Weights([]) == [];
    assert Weights(one) == [1] by { PlanMore([], Share(RUN, 1, [RUN2])); }
    PassTurns(ITEMS, STARTS, TARGETS, 1, 1, 2, one, q);
    assert one + [Share(COV, 10, [MERGE0])] == two;
    PassEnds(ITEMS, STARTS, TARGETS, 1, 1, two, r);
  }

  lemma RunningAfter()
    ensures forall j :: j in AFTER && AFTER[j] == D <==> j == RUN2 || j == MERGE0
    ensures RUN2 in ITEMS && MERGE0 in ITEMS && RUN2 != MERGE0
  {
    AllDifferent();
  }

  lemma TwoRunning()
    ensures |RunningJobs(ITEMS, AFTER)| == 2
  {
    hide ITEMS, AFTER;
    RunningAfter();
    assert RunningJobs(ITEMS, AFTER) == {RUN2} + {MERGE0};
  }

  /** Two jobs run after a pass with one slot: in a proper job graph, from a state that an undisturbed run with one job
      at a time comes to. */
  lemma DispatchExceedsLimit() returns (st: State)
    ensures Graph(ITEMS) && TargetsOf(ITEMS) == TARGETS
    ensures Undisturbed(ITEMS, st.trace) && Replay(st.trace) == st.status
    ensures Placed(ITEMS, st.status, {}, st.places) && Ready(ITEMS, st.status) == {}
    ensures TotalLen(st.places.running) == 0 && HeadWeights(TARGETS, st.places.queued) == 1
    ensures Sum(Quotas(1, 1, [1, 10])) == 11
    ensures var p := Pool(st.status, st.places.queued);
            |RunningJobs(ITEMS, Pass(ITEMS, STARTS, TARGETS, 1, 1, 0, [], p).0.status)| == 2
  {
    hide *;
    ItemGraph();
    ItemTargets();
    AllTargets();
    OneWaits();
    QuotasOvershoot();
    WholePass();
    TwoRunning();
    st := BeforeDispatch();
    AttainedMeans(st);
  }

  lemma AllTargets()
    ensures TARGETS == [BUILD, RUN, COV]
  {
  }

  lemma AttainedMeans(st: State)
    requires Attained(ITEMS, st)
    ensures Undisturbed(ITEMS, st.trace) && Replay(st.trace) == st.status && Placed(ITEMS, st.status, {}, st.places)
  {
  }

  // ---- one slot ----

  /** Two builds of a configuration, and a run of the second only. */
  const ONE := [BUILD0, BUILD1, RUN1]
  const FIRST: Pool := Pool(map[BUILD0 := Q, BUILD1 := Q], map[BUILD := [BUILD0, BUILD1], RUN := []])
  const SECOND: Pool := Pool(map[BUILD0 := D, BUILD1 := Q], map[BUILD := [BUILD1], RUN := []])

  lemma OneTargets()
    ensures TargetsOf(ONE) == [BUILD, RUN] && Index([BUILD, RUN], BUILD) == 0 && Index([BUILD, RUN], RUN) == 1
  {
    hide TargetsOf;
    AllDifferent();
    NothingWaits();
    assert ONE[..1] == [] + [BUILD0] && ONE[..2] == ONE[..1] + [BUILD1] && ONE == ONE[..2] + [RUN1];
    TargetsOfMore([], BUILD0);
    TargetsOfMore(ONE[..1], BUILD1);
    TargetsOfMore(ONE[..2], RUN1);
    IndexOfDistinct([BUILD, RUN], 0);
    IndexOfDistinct([BUILD, RUN], 1);
  }

  lemma OneIsWired()
    ensures Wired(ONE) && Follows(TargetsOf(ONE), BUILD, RUN)
    ensures CanPass(ONE, BUILD0) && BUILD0 in ONE && forall y :: y in ONE ==> BUILD0 !in y.deps
  {
    hide TargetsOf, Index;
    AllDifferent();
    OneTargets();
    assert RUN1.deps[0] in RUN1.deps && RUN1.deps[0] in ONE;
  }

  lemma OneStarts()
    ensures FirstQueued(ONE, FIRST)
  {
    hide TargetsOf;
    AllDifferent();
    OneTargets();
  }

  /** The first build takes the slot. */
  lemma FirstPass(starts: Job -> bool)
    requires forall j :: starts(j)
    ensures DispatchOf(ONE, starts, 1, FIRST) == SECOND
  {
    hide TargetsOf, Pass, HeadWeights, TargetTurn, Grant;
    AllDifferent();
    OneTargets();
    assert RunningJobs(ONE, FIRST.status) == {};
    FirstWeight();
    FirstTurn(starts);
    FirstGrant();
    var plan := [Share(BUILD, 5, [BUILD0])];
    PassTurns(ONE, starts, [BUILD, RUN], 1, 5, 0, [], FIRST);
    PassSkips(ONE, starts, [BUILD, RUN], 1, 5, 1, plan, SECOND);
    PassEnds(ONE, starts, [BUILD, RUN], 1, 5, plan, SECOND);
    assert [] + plan == plan;
  }

  lemma FirstWeight()
    ensures HeadWeights([BUILD, RUN], FIRST.queued) == 5
  {
    hide HeadWeights;
    AllDifferent();
    NoHeads(FIRST.queued);
    assert [BUILD, RUN][..0] == [] && [BUILD, RUN][..2] == [BUILD, RUN];
    HeadWeightsMore([BUILD, RUN], FIRST.queued, 0);
    HeadWeightsMore([BUILD, RUN], FIRST.queued, 1);
    assert HeadWeight(FIRST.queued, BUILD) == 5 && HeadWeight(FIRST.queued, RUN) == 0;
  }

  lemma FirstGrant()
    ensures Grant(1, 5, Weights([]), 5) == 1
  {
    hide Round;
    SmallSums();
    RoundExact(1, 5);
    GrantIs(1, 5, [], 5, 5, 0);
  }

  const POPPED: Pool := Pool(map[BUILD0 := Q, BUILD1 := Q], map[BUILD := [BUILD1], RUN := []])

  lemma FirstTaken()
    ensures Take(ONE, FIRST, BUILD, [BUILD0, BUILD1], 1) == (POPPED, [BUILD0])
  {
    hide MayRun, CancelTaken, Take, ONE, BUILD0, BUILD1, RUN1;
    AllDifferent();
    assert [BUILD0, BUILD1][1..] == [BUILD1];
    assert Pool(FIRST.status, FIRST.queued[BUILD := [BUILD1]]) == POPPED;
    BuildMayRun(FIRST.status);
    TakeStep(ONE, FIRST, BUILD, [BUILD0, BUILD1], 1);
    TakeEnds(ONE, POPPED, BUILD, [BUILD1], 0);
    JoinedEnd([BUILD0], POPPED);
  }

  lemma FirstTurn(starts: Job -> bool)
    requires forall j :: starts(j)
    ensures TargetTurn(ONE, starts, FIRST, BUILD, 1) == (SECOND, [BUILD0])
  {
    hide LaunchInTurn, Take, ONE, BUILD0, BUILD1, RUN1;
    AllDifferent();
    FirstTaken();
    NoneLaunchedYet(ONE, FIRST.status, starts);
    LaunchOneMore(ONE, FIRST.status, [], starts, BUILD0);
    assert [] + [BUILD0] == [BUILD0];
    assert FIRST.status[BUILD0 := D] == SECOND.status;
  }

  lemma BuildMayRun(s: Statuses)
    ensures MayRun(ONE, s, BUILD0)
  {
  }

  ghost predicate OneSlot(p: Pool) {
    p == FIRST || p == SECOND || Terminal(p.status, BUILD0)
  }

  /** With one slot no run loses the key, although the first build has no dependent: the second has to wait for it. */
  lemma {:induction false} OneSlotKeepsKey(starts: Job -> bool, turns: seq<Option<Event>>)
    requires (forall j :: starts(j)) && Possible(ONE, starts, 1, FIRST, turns)
    ensures OneSlot(After(ONE, starts, 1, FIRST, turns))
    ensures !KeyLost(ONE, After(ONE, starts, 1, FIRST, turns).status, BUILD0, RUN)
  {
    hide ONE, FIRST, SECOND, TurnOf, CanHappen, OneSlot, KeyLost;
    if turns == [] {
      assert OneSlot(FIRST) by { FirstIsOneSlot(); }
    } else {
      var n := |turns| - 1;
      OneSlotKeepsKey(starts, turns[..n]);
      OneIsWired();
      OneStarts();
      SoundThroughout(ONE, starts, 1, FIRST, turns[..n]);
      OneSlotTurn(starts, After(ONE, starts, 1, FIRST, turns[..n]), turns[n]);
    }
    OneSlotHasKey(After(ONE, starts, 1, FIRST, turns));
  }

  lemma FirstIsOneSlot()
    ensures OneSlot(FIRST)
  {
  }

  lemma OneSlotHasKey(p: Pool)
    requires OneSlot(p)
    ensures !KeyLost(ONE, p.status, BUILD0, RUN)
  {
    AllDifferent();
    assert RUN1 in ONE;
  }

  lemma OneSlotTurn(starts: Job -> bool, p: Pool, done: Option<Event>)
    requires Sound(ONE, p) && OneSlot(p) && CanHappen(p, done) && forall j :: starts(j)
    ensures OneSlot(TurnOf(ONE, starts, 1, p, done))
  {
    hide DispatchOf, Completed, ONE, Sound, Work, DepsDone;
    if done.Some? {
      var x, st := done.value.job, done.value.status;
      OnlyFirstRuns(p, x);
      CompletedStatus(ONE, p, x, st);
      CompletedIsSound(ONE, p, x, st);
      DispatchKeeps(ONE, starts, 1, Completed(ONE, p, x, st));
    } else {
      FirstPass(starts);
      SecondPass(starts);
      DispatchKeeps(ONE, starts, 1, p);
    }
  }

  lemma OnlyFirstRuns(p: Pool, x: Job)
    requires OneSlot(p) && Running(p.status, x)
    ensures x == BUILD0 || (Terminal(p.status, BUILD0) && x != BUILD0)
  {
    AllDifferent();
  }

  lemma SecondPass(starts: Job -> bool)
    ensures DispatchOf(ONE, starts, 1, SECOND) == SECOND
  {
    AllDifferent();
    assert RunningJobs(ONE, SECOND.status) == {BUILD0};
  }
}
