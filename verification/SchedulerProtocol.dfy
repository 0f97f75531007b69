/** Jobs, their dependency graph, and the protocol every history of job statuses follows. */
module SchedulerProtocol {
  import opened Wrappers

  type Target = string
  type Cfg = nat

  /** A deployable job. Dependencies may name jobs that were not scheduled. */
  datatype Job = Job(name: string, target: Target, cfg: Cfg, deps: seq<Job>, needsAll: bool, weight: nat)

  /** Queued, dispatched, passed, failed, killed. */
  datatype Status = Q | D | P | F | K

  type Statuses = map<Job, Status>

  datatype Event = Event(job: Job, status: Status)

  // ---- the job graph ----

  /** The targets of the jobs, in order of first appearance. */
  function TargetsOf(items: seq<Job>): seq<Target> {
    if items == [] then []
    else
      var ts := TargetsOf(items[..|items| - 1]);
      var t := items[|items| - 1].target;
      if t in ts then ts else ts + [t]
  }

  function Index(ts: seq<Target>, t: Target): (i: nat)
    requires t in ts
    ensures i < |ts| && ts[i] == t
  {
    if ts[0] == t then 0 else 1 + Index(ts[1..], t)
  }

  predicate Follows(ts: seq<Target>, a: Target, b: Target) {
    a in ts && b in ts && Index(ts, b) == Index(ts, a) + 1
  }

  /** What the flow configuration guarantees of the jobs it hands to the scheduler:
      scheduled dependencies lie in the same cfg and the target just before; a job beyond the first target has
      one; a job before the last target has a dependent in its cfg; weights are positive. */
  ghost predicate Graph(items: seq<Job>) {
    Wired(items) && HaveDependents(items)
  }

  /** All of that but the dependents. */
  ghost predicate Wired(items: seq<Job>) {
    && items != [] && InPlace(items) && HaveDependencies(items)
    && forall j :: j in items ==> j.weight > 0
  }

  ghost predicate InPlace(items: seq<Job>) {
    forall j, d :: j in items && d in j.deps && d in items ==>
      d.cfg == j.cfg && Follows(TargetsOf(items), d.target, j.target)
  }

  ghost predicate HaveDependencies(items: seq<Job>) {
    var ts := TargetsOf(items);
    ts != [] && forall j :: j in items && j.target != ts[0] ==> exists d :: d in j.deps && d in items
  }

  ghost predicate HaveDependents(items: seq<Job>) {
    var ts := TargetsOf(items);
    ts != [] && forall j :: j in items && j.target != ts[|ts| - 1] ==> exists s :: s in items && j in s.deps
  }

  lemma {:induction false} TargetsOfSpec(items: seq<Job>)
    ensures Distinct(TargetsOf(items))
    ensures forall j :: j in items ==> j.target in TargetsOf(items)
    ensures forall t :: t in TargetsOf(items) ==> exists j :: j in items && j.target == t
    ensures items != [] ==> TargetsOf(items) != []
  {
    if items != [] {
      var n := |items| - 1;
      TargetsOfSpec(items[..n]);
      forall j | j in items ensures j.target in TargetsOf(items) {
        assert j in items[..n] || j == items[n];
      }
      forall t | t in TargetsOf(items) ensures exists j :: j in items && j.target == t {
        if t in TargetsOf(items[..n]) {
          var j :| j in items[..n] && j.target == t;
          assert j in items;
        } else {
          assert items[n].target == t;
        }
      }
    }
  }

  lemma GraphWeights(items: seq<Job>, j: Job)
    requires Graph(items) && j in items
    ensures j.weight > 0
  {
  }

  lemma GraphDependency(items: seq<Job>, j: Job, d: Job)
    requires Graph(items) && j in items && d in items && d in j.deps
    ensures d.cfg == j.cfg && Follows(TargetsOf(items), d.target, j.target)
  {
    hide TargetsOf, Follows;
  }

  lemma GraphHasDependency(items: seq<Job>, j: Job)
    requires Graph(items) && j in items && TargetsOf(items) != [] && j.target != TargetsOf(items)[0]
    ensures j.deps != []
  {
    hide TargetsOf, Follows;
  }

  lemma GraphDependent(items: seq<Job>, j: Job) returns (y: Job)
    requires Graph(items) && j in items && TargetsOf(items) != []
    requires j.target != TargetsOf(items)[|TargetsOf(items)| - 1]
    ensures y in items && j in y.deps
  {
    hide TargetsOf, Follows;
    y :| y in items && j in y.deps;
  }

  lemma GraphTargets(items: seq<Job>)
    requires Graph(items)
    ensures TargetsOf(items) != [] && Distinct(TargetsOf(items))
    ensures forall j :: j in items ==> j.target in TargetsOf(items)
  {
    TargetsOfSpec(items);
  }

  lemma {:induction false} IndexOfDistinct(ts: seq<Target>, i: nat)
    requires Distinct(ts) && i < |ts|
    ensures Index(ts, ts[i]) == i
  {
    if i > 0 {
      assert ts[0] != ts[i];
      assert ts[i] == ts[1..][i - 1];
      IndexOfDistinct(ts[1..], i - 1);
    }
  }

  // ---- what the statuses say ----

  predicate Final(st: Status) {
    st == P || st == F || st == K
  }

  predicate Terminal(s: Statuses, j: Job) {
    j in s && Final(s[j])
  }

  /** All scheduled dependencies are complete. */
  predicate DepsDone(items: seq<Job>, s: Statuses, j: Job) {
    forall d :: d in j.deps && d in items ==> Terminal(s, d)
  }

  /** The scheduled dependencies allow the job to run: all passed, or at least one. */
  predicate MayRun(items: seq<Job>, s: Statuses, j: Job) {
    if j.needsAll then forall d :: d in j.deps && d in items ==> d in s && s[d] == P
    else exists d :: d in j.deps && d in items && d in s && s[d] == P
  }

  /** Jobs still waiting although nothing they depend on is outstanding. */
  ghost function Ready(items: seq<Job>, s: Statuses): set<Job> {
    set j | j in items && j !in s && DepsDone(items, s, j)
  }

  lemma ReadyUnstarted(items: seq<Job>, s: Statuses)
    ensures forall j :: j in Ready(items, s) ==> j in items && j !in s && DepsDone(items, s, j)
  {
  }

  ghost predicate AllTerminal(items: seq<Job>, s: Statuses) {
    forall j :: j in items ==> Terminal(s, j)
  }

  // ---- histories ----

  /** Which status a job may take on, given all statuses so far. */
  predicate LegalEvent(items: seq<Job>, s: Statuses, e: Event) {
    && e.job in items
    && match e.status {
      case Q => e.job !in s && DepsDone(items, s, e.job)
      case D => e.job in s && s[e.job] == Q && MayRun(items, s, e.job)
      case P => e.job in s && s[e.job] == D
      case F => e.job in s && s[e.job] == D
      case K => if e.job in s then !Final(s[e.job]) else DepsDone(items, s, e.job)
    }
  }

  function Replay(trace: seq<Event>): Statuses {
    if trace == [] then map[]
    else
      var e := trace[|trace| - 1];
      Replay(trace[..|trace| - 1])[e.job := e.status]
  }

  predicate Legal(items: seq<Job>, trace: seq<Event>) {
    trace == [] ||
    (Legal(items, trace[..|trace| - 1]) && LegalEvent(items, Replay(trace[..|trace| - 1]), trace[|trace| - 1]))
  }

  /** The jobs dispatched in a history, in order. */
  function Dispatched(trace: seq<Event>): seq<Job> {
    if trace == [] then []
    else
      var e := trace[|trace| - 1];
      Dispatched(trace[..|trace| - 1]) + if e.status == D then [e.job] else []
  }

  lemma EmptyHistory(items: seq<Job>)
    ensures Legal(items, []) && Replay([]) == map[] && Dispatched([]) == []
  {
  }

  lemma Extend(items: seq<Job>, trace: seq<Event>, e: Event)
    requires Legal(items, trace) && LegalEvent(items, Replay(trace), e)
    ensures Legal(items, trace + [e])
    ensures Replay(trace + [e]) == Replay(trace)[e.job := e.status]
    ensures Dispatched(trace + [e]) == Dispatched(trace) + if e.status == D then [e.job] else []
  {
    assert (trace + [e])[..|trace|] == trace;
  }

  /** The history leads to these statuses and dispatches. */
  ghost predicate Recorded(items: seq<Job>, trace: seq<Event>, s: Statuses, dispatched: seq<Job>) {
    Legal(items, trace) && Replay(trace) == s && Dispatched(trace) == dispatched
  }

  lemma RecordOne(items: seq<Job>, trace: seq<Event>, s: Statuses, dispatched: seq<Job>, e: Event)
    requires Recorded(items, trace, s, dispatched) && LegalEvent(items, s, e)
    ensures e.status != D ==> Recorded(items, trace + [e], s[e.job := e.status], dispatched)
    ensures e.status == D ==> Recorded(items, trace + [e], s[e.job := e.status], dispatched + [e.job])
  {
    hide Legal, Replay, Dispatched;
    Extend(items, trace, e);
  }

  /** Every beginning of a legal history is legal, and each of its events was legal when it happened. */
  lemma {:induction false} LegalPrefix(items: seq<Job>, trace: seq<Event>, n: nat)
    requires Legal(items, trace) && n <= |trace|
    ensures Legal(items, trace[..n])
    ensures n < |trace| ==> LegalEvent(items, Replay(trace[..n]), trace[n])
    decreases |trace|
  {
    if n == |trace| {
      assert trace[..n] == trace;
    } else {
      var l := |trace| - 1;
      LegalPrefix(items, trace[..l], n);
      assert trace[..l][..n] == trace[..n];
    }
  }

  /** Final statuses never change. */
  lemma {:induction false} FinalForever(items: seq<Job>, trace: seq<Event>, n: nat, j: Job)
    requires Legal(items, trace) && n <= |trace| && Terminal(Replay(trace[..n]), j)
    ensures j in Replay(trace) && Replay(trace)[j] == Replay(trace[..n])[j]
    decreases |trace|
  {
    if n == |trace| {
      assert trace[..n] == trace;
    } else {
      var l := |trace| - 1;
      assert trace[..l][..n] == trace[..n];
      FinalForever(items, trace[..l], n, j);
    }
  }

  /** One status map continues another: everything final there is unchanged. */
  ghost predicate Continues(s: Statuses, t: Statuses) {
    forall j :: Terminal(s, j) ==> j in t && t[j] == s[j]
  }

  lemma HistoryContinues(items: seq<Job>, trace: seq<Event>, n: nat)
    requires Legal(items, trace) && n <= |trace|
    ensures Continues(Replay(trace[..n]), Replay(trace))
  {
    forall j | Terminal(Replay(trace[..n]), j)
      ensures j in Replay(trace) && Replay(trace)[j] == Replay(trace[..n])[j]
    {
      FinalForever(items, trace, n, j);
    }
  }

  /** Whether a job may run is settled once its dependencies are complete. */
  lemma MayRunSettled(items: seq<Job>, s: Statuses, t: Statuses, j: Job)
    requires Continues(s, t) && DepsDone(items, s, j)
    ensures DepsDone(items, t, j)
    ensures MayRun(items, s, j) == MayRun(items, t, j)
  {
    forall d | d in j.deps && d in items ensures Terminal(t, d) && t[d] == s[d] {
      assert Terminal(s, d);
    }
  }

  /** Every job that has a status had all its scheduled dependencies complete. */
  lemma {:induction false} StartedDepsDone(items: seq<Job>, trace: seq<Event>, j: Job)
    requires Legal(items, trace) && j in Replay(trace)
    ensures j in items && DepsDone(items, Replay(trace), j)
  {
    var l := |trace| - 1;
    var s, e := Replay(trace[..l]), trace[l];
    if j in s { StartedDepsDone(items, trace[..l], j); }
    HistoryContinues(items, trace, l);
    MayRunSettled(items, s, Replay(trace), j);
  }

  /** Main theorem on histories: at the moment a job is dispatched all its scheduled dependencies are complete,
      with all of them passed if it needs all and at least one passed otherwise, and at every later moment those
      dependencies still have the same statuses. */
  lemma DispatchedAfterDependencies(items: seq<Job>, trace: seq<Event>, n: nat, m: nat)
    requires Legal(items, trace) && n <= m <= |trace| && n < |trace| && trace[n].status == D
    ensures var j, before, later := trace[n].job, Replay(trace[..n]), Replay(trace[..m]);
            && (forall d :: d in j.deps && d in items ==> d in before && Final(before[d]))
            && (if j.needsAll then forall d :: d in j.deps && d in items ==> before[d] == P
                else exists d :: d in j.deps && d in items && before[d] == P)
            && forall d :: d in j.deps && d in items ==> d in later && later[d] == before[d]
  {
    var j := trace[n].job;
    LegalPrefix(items, trace, n);
    StartedDepsDone(items, trace[..n], j);
    LegalPrefix(items, trace, m);
    assert trace[..m][..n] == trace[..n];
    HistoryContinues(items, trace[..m], n);
    assert forall d :: d in j.deps && d in items ==> Terminal(Replay(trace[..n]), d);
  }

  /** A job found queued now and not at some earlier moment was queued in between. */
  lemma {:induction false} QueuedSince(items: seq<Job>, trace: seq<Event>, n: nat, j: Job)
    requires Legal(items, trace) && n <= |trace| && j in Replay(trace) && Replay(trace)[j] == Q
    requires j in Replay(trace[..n]) ==> Replay(trace[..n])[j] != Q
    ensures exists i :: n <= i < |trace| && trace[i] == Event(j, Q)
    decreases |trace|
  {
    assert trace[..|trace|] == trace;
    if n < |trace| {
      var l := |trace| - 1;
      assert trace[..l][..n] == trace[..n];
      if trace[l] != Event(j, Q) {
        QueuedSince(items, trace[..l], n, j);
        var i :| n <= i < l && trace[..l][i] == Event(j, Q);
        assert trace[i] == Event(j, Q);
      }
    }
  }

  /** What a history dispatches is a beginning of what a longer one does. */
  lemma {:induction false} DispatchedPrefix(trace: seq<Event>, n: nat)
    requires n <= |trace|
    ensures Dispatched(trace[..n]) <= Dispatched(trace)
    decreases |trace|
  {
    if n == |trace| {
      assert trace[..n] == trace;
    } else {
      var l := |trace| - 1;
      assert trace[..l][..n] == trace[..n];
      DispatchedPrefix(trace[..l], n);
    }
  }

  /** A running job was dispatched. */
  lemma {:induction false} RunningWasDispatched(items: seq<Job>, trace: seq<Event>, j: Job)
    requires Legal(items, trace) && j in Replay(trace) && Replay(trace)[j] == D
    ensures j in Dispatched(trace)
  {
    var l := |trace| - 1;
    if trace[l].job != j { RunningWasDispatched(items, trace[..l], j); }
  }

  /** The jobs dispatched since some earlier moment, none of which was running then. */
  lemma {:induction false} DispatchedSince(items: seq<Job>, trace: seq<Event>, n: nat, j: Job)
    requires Legal(items, trace) && n <= |trace|
    ensures Dispatched(trace[..n]) <= Dispatched(trace)
    ensures var since := Dispatched(trace)[|Dispatched(trace[..n])|..];
            && (j in since ==> Stage(Replay(trace[..n]), j) >= 2)
            && (j in Replay(trace) && Replay(trace)[j] == D ==>
                  j in since || (j in Replay(trace[..n]) && Replay(trace[..n])[j] == D))
    decreases |trace|
  {
    DispatchedPrefix(trace, n);
    if n == |trace| {
      assert trace[..n] == trace;
    } else {
      var l := |trace| - 1;
      assert trace[..l][..n] == trace[..n];
      DispatchedSince(items, trace[..l], n, j);
      StageNeverRises(items, trace[..l], n, j);
      var m, e := |Dispatched(trace[..n])|, trace[l];
      var more: seq<Job> := if e.status == D then [e.job] else [];
      assert Dispatched(trace)[m..] == Dispatched(trace[..l])[m..] + more;
    }
  }

  /** The same in terms of records, with what is settled by then. */
  lemma Later(items: seq<Job>, before: seq<Event>, s: Statuses, ds: seq<Job>,
              after: seq<Event>, t: Statuses, es: seq<Job>)
    requires Recorded(items, before, s, ds) && Recorded(items, after, t, es) && before <= after
    ensures Continues(s, t)
    ensures forall j :: j in s ==> j in items && DepsDone(items, s, j) && MayRun(items, s, j) == MayRun(items, t, j)
  {
    assert after[..|before|] == before;
    HistoryContinues(items, after, |before|);
    forall j | j in s
      ensures j in items && DepsDone(items, s, j) && MayRun(items, s, j) == MayRun(items, t, j)
    {
      StartedDepsDone(items, before, j);
      MayRunSettled(items, s, t, j);
    }
  }

  lemma NoneQueuedByCascade(items: seq<Job>, s: Statuses, x: Job, t: Statuses)
    requires Cascade(items, s[x := K], t)
    ensures NoneQueued(s, t)
  {
    forall j | j in t && t[j] == Q ensures j in s && s[j] == Q {
      assert j in s[x := K];
    }
  }

  /** No job became queued between two moments and still is. */
  ghost predicate NoneQueued(s: Statuses, t: Statuses) {
    forall j :: j in t && t[j] == Q ==> j in s && s[j] == Q
  }

  lemma AlwaysNone(s: Statuses)
    ensures NoneQueued(s, s)
  {
  }

  lemma NoneQueuedOne(s: Statuses, x: Job)
    ensures NoneQueued(s, s[x := D])
  {
  }

  lemma NoneQueuedOn(s: Statuses, t: Statuses, u: Statuses)
    requires NoneQueued(s, t) && NoneQueued(t, u)
    ensures NoneQueued(s, u)
  {
  }

  // ---- what polling and dispatching may do to the statuses ----

  /** Polling: running jobs take on their verdicts, waiting jobs become queued, nothing else changes. */
  ghost predicate Polls(s: Statuses, t: Statuses, verdict: Job -> Status) {
    && (forall j :: j in s ==> j in t && (t[j] == s[j] || (s[j] == D && t[j] == verdict(j))))
    && (forall j :: j in t && j !in s ==> t[j] == Q)
  }

  lemma PollsNothing(s: Statuses, verdict: Job -> Status)
    ensures Polls(s, s, verdict)
  {
  }

  lemma PollsOne(s: Statuses, x: Job, st: Status, t: Statuses, verdict: Job -> Status)
    requires x in s && s[x] == D && x in t && t[x] == st == verdict(x)
    requires forall j :: j in s && j != x ==> j in t && t[j] == s[j]
    requires forall j :: j in t && j !in s ==> t[j] == Q
    ensures Polls(s, t, verdict)
  {
  }

  lemma PollsOn(s: Statuses, t: Statuses, u: Statuses, verdict: Job -> Status)
    requires Polls(s, t, verdict) && Polls(t, u, verdict) && forall j :: Final(verdict(j))
    ensures Polls(s, u, verdict)
  {
    forall j | j in u && j !in s ensures u[j] == Q {
      assert j in t ==> t[j] == Q;
    }
  }

  /** A failed launch has cancelled the job: the launch of a dependency failed, or one was cancelled this way. */
  ghost predicate Struck(items: seq<Job>, starts: Job -> bool, s: Statuses, j: Job) {
    exists d :: d in j.deps && d in items && d in s && s[d] == K
             && ((MayRun(items, s, d) && !starts(d)) || Struck(items, starts, s, d))
  }

  /** Why a job is killed without an interrupt and without its own verdict. */
  ghost predicate Excused(items: seq<Job>, starts: Job -> bool, s: Statuses, j: Job) {
    !MayRun(items, s, j) || !starts(j) || Struck(items, starts, s, j)
  }

  ghost predicate AllDepsDone(items: seq<Job>, s: Statuses) {
    forall j :: j in s ==> DepsDone(items, s, j)
  }

  /** Dispatching: a queued job stays queued, or is dispatched if it may run and can be launched, or else is killed;
      jobs that were running or complete stay as they are; a waiting job becomes queued and may go on from there, or is
      struck by a failed launch. */
  ghost predicate Dispatches(items: seq<Job>, s: Statuses, t: Statuses, starts: Job -> bool) {
    && AllDepsDone(items, t)
    && (forall j :: j in s ==> j in t)
    && (forall j :: j in s && t[j] != s[j] ==> s[j] == Q && t[j] == if MayRun(items, s, j) && starts(j) then D else K)
    && (forall j :: j in t && j !in s ==>
          t[j] == Q || (t[j] == D && MayRun(items, t, j) && starts(j)) || (t[j] == K && Excused(items, starts, t, j)))
  }

  lemma {:induction false} StruckSettled(items: seq<Job>, starts: Job -> bool, s: Statuses, t: Statuses, j: Job)
    requires Continues(s, t) && AllDepsDone(items, s) && DepsDone(items, s, j)
    ensures Struck(items, starts, s, j) == Struck(items, starts, t, j)
    decreases j
  {
    hide MayRun;
    forall d | d in j.deps && d in items
      ensures d in s && d in t && s[d] == t[d] && MayRun(items, s, d) == MayRun(items, t, d)
      ensures Struck(items, starts, s, d) == Struck(items, starts, t, d)
    {
      assert Terminal(s, d);
      MayRunSettled(items, s, t, d);
      StruckSettled(items, starts, s, t, d);
    }
  }

  lemma ExcusedSettled(items: seq<Job>, starts: Job -> bool, s: Statuses, t: Statuses, j: Job)
    requires Continues(s, t) && AllDepsDone(items, s) && DepsDone(items, s, j)
    ensures Excused(items, starts, s, j) == Excused(items, starts, t, j)
    ensures MayRun(items, s, j) == MayRun(items, t, j)
  {
    hide MayRun, Struck;
    StruckSettled(items, starts, s, t, j);
    MayRunSettled(items, s, t, j);
  }

  /** What a failed launch cancels is struck. */
  lemma {:induction false} CascadeStrikes(
    items: seq<Job>, starts: Job -> bool, s: Statuses, x: Job, t: Statuses, j: Job)
    requires Ready(items, s) == {} && AllDepsDone(items, s) && x in items && x in s && s[x] == Q
    requires MayRun(items, s, x) && !starts(x) && Cascade(items, s[x := K], t)
    requires j in t && j !in s
    ensures Struck(items, starts, t, j)
    decreases j
  {
    hide MayRun;
    assert j in items && t[j] == K && DepsDone(items, t, j);
    assert j !in Ready(items, s);
    var d :| d in j.deps && d in items && !Terminal(s, d);
    assert Terminal(t, d);
    if d == x {
      assert Continues(s, t);
      MayRunSettled(items, s, t, x);
    } else {
      assert d !in s;
      CascadeStrikes(items, starts, s, x, t, d);
    }
  }

  lemma DispatchesNothing(items: seq<Job>, s: Statuses, starts: Job -> bool)
    requires AllDepsDone(items, s)
    ensures Dispatches(items, s, s, starts)
  {
  }

  lemma DispatchesLaunch(items: seq<Job>, s: Statuses, x: Job, t: Statuses, starts: Job -> bool)
    requires x in s && s[x] == Q && MayRun(items, s, x) && x in t && t[x] == if starts(x) then D else K
    requires forall j :: j in s && j != x ==> j in t && t[j] == s[j]
    requires forall j :: j in t && j !in s ==> t[j] == K && Struck(items, starts, t, j)
    requires AllDepsDone(items, t)
    ensures Dispatches(items, s, t, starts)
  {
  }

  lemma DispatchesCancel(items: seq<Job>, s: Statuses, x: Job, t: Statuses, starts: Job -> bool)
    requires x in s && s[x] == Q && !MayRun(items, s, x)
    requires forall j :: j in s ==> j in t
    requires forall j :: j in t ==> t[j] == if j == x then K else if j in s then s[j] else Q
    requires AllDepsDone(items, t)
    ensures Dispatches(items, s, t, starts)
  {
  }

  /** The jobs have been launched: running, or killed if they could not be. */
  ghost predicate Launched(jobs: seq<Job>, s: Statuses, starts: Job -> bool) {
    forall j :: j in jobs ==> j in s && s[j] == if starts(j) then D else K
  }

  lemma LaunchedOn(items: seq<Job>, a: seq<Job>, b: seq<Job>, s: Statuses, t: Statuses, starts: Job -> bool)
    requires Launched(a, s, starts) && Dispatches(items, s, t, starts) && Launched(b, t, starts)
    ensures Launched(a + b, t, starts)
  {
    hide MayRun;
  }

  lemma NoneLaunched(s: Statuses, starts: Job -> bool)
    ensures Launched([], s, starts)
  {
  }

  lemma LaunchedStays(items: seq<Job>, jobs: seq<Job>, x: Job, s: Statuses, t: Statuses, starts: Job -> bool)
    requires Launched(jobs, s, starts) && Dispatches(items, s, t, starts)
    requires x in t && t[x] == if starts(x) then D else K
    ensures Launched(jobs + [x], t, starts)
  {
    hide MayRun;
  }

  lemma DispatchesOn(items: seq<Job>, s: Statuses, t: Statuses, u: Statuses, starts: Job -> bool)
    requires Dispatches(items, s, t, starts) && Dispatches(items, t, u, starts)
    requires AllDepsDone(items, s)
    ensures Dispatches(items, s, u, starts)
  {
    hide MayRun, DepsDone, Struck;
    assert Continues(s, t);
    assert Continues(t, u);
    forall j | j in s
      ensures j in u && (u[j] == s[j] || (s[j] == Q && u[j] == if MayRun(items, s, j) && starts(j) then D else K))
    {
      MayRunSettled(items, s, t, j);
    }
    forall j | j in u && j !in s
      ensures u[j] == Q || (u[j] == D && MayRun(items, u, j) && starts(j))
              || (u[j] == K && Excused(items, starts, u, j))
    {
      if j in t { ExcusedSettled(items, starts, t, u, j); }
    }
  }

  // ---- what becomes of each job ----

  /** Why every job has its status: it is running or has its verdict because it was launched as it may run; it was
      killed because of its verdict, or is excused, or there was an interrupt. */
  ghost predicate Explained(items: seq<Job>, verdict: Job -> Status, starts: Job -> bool, launched: seq<Job>,
                            interrupted: bool, s: Statuses) {
    forall j :: j in s && s[j] != Q ==>
      var ran := j in launched && MayRun(items, s, j) && starts(j);
      if s[j] == D then ran
      else (ran && s[j] == verdict(j)) || (s[j] == K && (interrupted || Excused(items, starts, s, j)))
  }

  lemma ExplainedPolls(items: seq<Job>, verdict: Job -> Status, starts: Job -> bool, launched: seq<Job>,
                       interrupted: bool, s: Statuses, t: Statuses)
    requires Explained(items, verdict, starts, launched, interrupted, s) && Polls(s, t, verdict)
    requires AllDepsDone(items, s) && forall j :: Final(verdict(j))
    ensures Explained(items, verdict, starts, launched, interrupted, t)
  {
    hide MayRun, DepsDone, Excused;
    assert Continues(s, t);
    forall j | j in s
      ensures MayRun(items, s, j) == MayRun(items, t, j) && Excused(items, starts, s, j) == Excused(items, starts, t, j)
    {
      ExcusedSettled(items, starts, s, t, j);
    }
  }

  lemma ExplainedDispatches(items: seq<Job>, verdict: Job -> Status, starts: Job -> bool, launched: seq<Job>,
                            interrupted: bool, s: Statuses, t: Statuses, more: seq<Job>)
    requires Explained(items, verdict, starts, launched, interrupted, s) && Dispatches(items, s, t, starts)
    requires AllDepsDone(items, s) && (forall j :: j in launched ==> j in more)
    requires forall j :: j in t && t[j] == D ==> j in more
    ensures Explained(items, verdict, starts, more, interrupted, t)
  {
    hide MayRun, DepsDone, Struck;
    assert Continues(s, t);
    forall j | j in s
      ensures MayRun(items, s, j) == MayRun(items, t, j) && Excused(items, starts, s, j) == Excused(items, starts, t, j)
    {
      ExcusedSettled(items, starts, s, t, j);
    }
  }

  /** An interrupt kills what is not complete and leaves the rest. */
  ghost predicate KilledOff(s: Statuses, t: Statuses) {
    && (forall j :: j in s ==> j in t && (t[j] == s[j] || (!Final(s[j]) && t[j] == K)))
    && (forall j :: j in t && j !in s ==> t[j] == K)
  }

  lemma KilledOffNone(s: Statuses)
    ensures KilledOff(s, s)
  {
  }

  lemma KilledOffOn(s: Statuses, t: Statuses, u: Statuses)
    requires KilledOff(s, t) && KilledOff(t, u)
    ensures KilledOff(s, u)
  {
    forall j | j in u && j !in s ensures u[j] == K { assert j in t ==> t[j] == K; }
  }

  lemma CascadeKillsOff(items: seq<Job>, s: Statuses, x: Job, t: Statuses)
    requires Cascade(items, s[x := K], t) && !Terminal(s, x)
    ensures KilledOff(s, t)
  {
    assert x in s[x := K];
    forall j | j in s ensures j in t && (t[j] == s[j] || (!Final(s[j]) && t[j] == K)) { assert j in s[x := K]; }
  }

  lemma ExplainedKilled(items: seq<Job>, verdict: Job -> Status, starts: Job -> bool, launched: seq<Job>,
                        interrupted: bool, s: Statuses, t: Statuses)
    requires Explained(items, verdict, starts, launched, interrupted, s) && KilledOff(s, t) && AllDepsDone(items, s)
    ensures Explained(items, verdict, starts, launched, true, t)
  {
    hide MayRun, DepsDone, Excused;
    assert Continues(s, t);
    forall j | j in s ensures MayRun(items, s, j) == MayRun(items, t, j) { MayRunSettled(items, s, t, j); }
  }

  /** What becomes of a job in a run without interrupts and failed launches: its verdict if the dependencies allow it to
      run, and otherwise it is killed. */
  ghost function Expected(items: seq<Job>, verdict: Job -> Status, j: Job): Status {
    if (if j.needsAll then forall d :: d in j.deps && d in items ==> Expected(items, verdict, d) == P
        else exists d :: d in j.deps && d in items && Expected(items, verdict, d) == P)
    then verdict(j) else K
  }

  lemma {:induction false} NoneStruck(items: seq<Job>, starts: Job -> bool, s: Statuses, j: Job)
    requires forall d :: starts(d)
    ensures !Struck(items, starts, s, j)
    decreases j
  {
    forall d | d in j.deps ensures !Struck(items, starts, s, d) { NoneStruck(items, starts, s, d); }
  }

  /** The outcome of a run without interrupts and failed launches is settled by the verdicts alone. */
  lemma {:induction false} AsExpected(items: seq<Job>, verdict: Job -> Status, starts: Job -> bool, launched: seq<Job>,
                                      s: Statuses, j: Job)
    requires Explained(items, verdict, starts, launched, false, s) && AllTerminal(items, s) && j in items
    requires forall d :: starts(d)
    ensures j in s && s[j] == Expected(items, verdict, j)
    ensures Expected(items, verdict, j) != K ==> j in launched
    decreases j
  {
    assert Terminal(s, j);
    NoneStruck(items, starts, s, j);
    forall d | d in j.deps && d in items ensures d in s && s[d] == Expected(items, verdict, d) {
      AsExpected(items, verdict, starts, launched, s, d);
    }
    assert MayRun(items, s, j) <==>
           if j.needsAll then forall d :: d in j.deps && d in items ==> Expected(items, verdict, d) == P
           else exists d :: d in j.deps && d in items && Expected(items, verdict, d) == P;
  }

  // ---- stages ----

  /** How many steps a job can still take. */
  function Stage(s: Statuses, j: Job): nat {
    if j !in s then 3 else match s[j] { case Q => 2 case D => 1 case P => 0 case F => 0 case K => 0 }
  }

  function Work(items: seq<Job>, s: Statuses): nat {
    if items == [] then 0 else Work(items[..|items| - 1], s) + Stage(s, items[|items| - 1])
  }

  lemma {:induction false} WorkFalls(items: seq<Job>, s: Statuses, e: Event)
    requires Stage(s[e.job := e.status], e.job) < Stage(s, e.job)
    ensures Work(items, s[e.job := e.status]) <= Work(items, s)
    ensures e.job in items ==> Work(items, s[e.job := e.status]) < Work(items, s)
  {
    if items != [] {
      var n := |items| - 1;
      WorkFalls(items[..n], s, e);
      assert e.job in items ==> e.job in items[..n] || e.job == items[n];
    }
  }

  /** Every event of a history uses up a step: after n events, at least n steps fewer are left. */
  lemma {:induction false} HistoryUsesWork(items: seq<Job>, trace: seq<Event>, n: nat)
    requires Legal(items, trace) && n <= |trace|
    ensures Work(items, Replay(trace)) + (|trace| - n) <= Work(items, Replay(trace[..n]))
    decreases |trace|
  {
    if n == |trace| {
      assert trace[..n] == trace;
    } else {
      var l := |trace| - 1;
      HistoryUsesWork(items, trace[..l], n);
      assert trace[..l][..n] == trace[..n];
      WorkFalls(items, Replay(trace[..l]), trace[l]);
    }
  }

  lemma {:induction false} InitialWork(items: seq<Job>)
    ensures Work(items, map[]) == 3 * |items|
  {
    if items != [] { InitialWork(items[..|items| - 1]); }
  }

  /** A history has at most three events per job. */
  lemma HistoryBound(items: seq<Job>, trace: seq<Event>)
    requires Legal(items, trace)
    ensures |trace| <= 3 * |items|
  {
    HistoryUsesWork(items, trace, 0);
    assert trace[..0] == [];
    InitialWork(items);
  }

  /** No job is dispatched twice. */
  lemma DispatchedOnce(items: seq<Job>, trace: seq<Event>, n: nat, m: nat)
    requires Legal(items, trace) && n < m < |trace| && trace[n].status == D && trace[m].status == D
    ensures trace[n].job != trace[m].job
  {
    LegalPrefix(items, trace, m);
    assert trace[..n + 1][..n] == trace[..n];
    StageNeverRises(items, trace[..m], n + 1, trace[n].job);
    assert trace[..m][..n + 1] == trace[..n + 1];
  }

  lemma {:induction false} StageNeverRises(items: seq<Job>, trace: seq<Event>, n: nat, j: Job)
    requires Legal(items, trace) && n <= |trace|
    ensures Stage(Replay(trace), j) <= Stage(Replay(trace[..n]), j)
    decreases |trace|
  {
    if n == |trace| {
      assert trace[..n] == trace;
    } else {
      var l := |trace| - 1;
      StageNeverRises(items, trace[..l], n, j);
      assert trace[..l][..n] == trace[..n];
    }
  }

  // ---- nothing gets stuck ----

  /** If no waiting job is ready and nothing is queued or running, everything is complete: the dependencies of a
      waiting job lead back to the first target. */
  lemma {:induction false} NothingStuck(items: seq<Job>, s: Statuses, j: Job)
    requires Graph(items) && j in items
    requires Ready(items, s) == {}
    requires forall x :: x in items && x in s ==> Final(s[x])
    ensures Terminal(s, j)
    decreases j
  {
    if j !in s {
      assert j !in Ready(items, s);
      var d :| d in j.deps && d in items && !Terminal(s, d);
      NothingStuck(items, s, d);
      assert false;
    }
  }

  /** At the start the jobs of the first target are ready, and no others. */
  lemma FirstTargetReady(items: seq<Job>)
    requires Wired(items)
    ensures TargetsOf(items) != []
    ensures forall j :: j in Ready(items, map[]) <==> j in items && j.target == TargetsOf(items)[0]
  {
    var ts := TargetsOf(items);
    TargetsOfSpec(items);
    forall j | j in items ensures j in Ready(items, map[]) <==> j.target == ts[0] {
      if j.target == ts[0] {
        assert Index(ts, ts[0]) == 0;
      } else {
        var d :| d in j.deps && d in items;
        assert !Terminal(map[], d);
      }
    }
  }

  /** In an unfinished state where no waiting job is ready, some job is queued or running. */
  lemma SomethingActive(items: seq<Job>, s: Statuses)
    requires Graph(items) && Ready(items, s) == {} && !AllTerminal(items, s)
    ensures exists j :: j in items && j in s && (s[j] == Q || s[j] == D)
  {
    if forall j :: j in items && j in s ==> Final(s[j]) {
      forall j | j in items ensures Terminal(s, j) { NothingStuck(items, s, j); }
    }
  }

  /** Which waiting jobs become ready when x takes on a final status: those that depend on x. */
  lemma ReadyAfterFinal(items: seq<Job>, s: Statuses, x: Job, st: Status)
    requires !Terminal(s, x) && Final(st)
    ensures forall j :: j in Ready(items, s[x := st]) <==>
              (j != x && j in Ready(items, s)) || (j in Ready(items, s[x := st]) && x in j.deps)
  {
    forall j | j in Ready(items, s) && j != x ensures j in Ready(items, s[x := st]) {
      forall d | d in j.deps && d in items ensures Terminal(s[x := st], d) { assert Terminal(s, d); }
    }
    forall j | j in Ready(items, s[x := st]) && x !in j.deps ensures j != x && j in Ready(items, s) {
      forall d | d in j.deps && d in items ensures Terminal(s, d) { assert Terminal(s[x := st], d); }
    }
  }

  /** Queueing or dispatching a job makes no other job ready. */
  lemma ReadyAfterActive(items: seq<Job>, s: Statuses, x: Job, st: Status)
    requires !Terminal(s, x) && !Final(st)
    ensures Ready(items, s[x := st]) == Ready(items, s) - {x}
  {
    forall j | j != x ensures DepsDone(items, s[x := st], j) == DepsDone(items, s, j) {
      assert forall d :: Terminal(s[x := st], d) == Terminal(s, d);
    }
  }

  /** Before a job completes, its dependents are still waiting. */
  lemma DependentWaits(items: seq<Job>, trace: seq<Event>, x: Job, y: Job)
    requires Legal(items, trace) && x in items && x in y.deps && !Terminal(Replay(trace), x)
    ensures y !in Replay(trace)
  {
    if y in Replay(trace) { StartedDepsDone(items, trace, y); }
  }

  /** The job has just completed: no job that depends on it has started. */
  ghost predicate JustCompleted(items: seq<Job>, s: Statuses, x: Job) {
    x in items && Terminal(s, x) && forall y :: y in items && x in y.deps ==> y !in s
  }

  lemma NotOwnDependency(x: Job)
    ensures x !in x.deps
  {
    forall i | 0 <= i < |x.deps| ensures x.deps[i] != x {}
  }

  lemma CompletesNow(
    items: seq<Job>, trace: seq<Event>, s: Statuses, dispatched: seq<Job>, x: Job, st: Status)
    requires Recorded(items, trace, s, dispatched) && x in items && !Terminal(s, x) && Final(st)
    ensures JustCompleted(items, s[x := st], x)
  {
    hide Legal, Replay;
    NotOwnDependency(x);
    forall y | y in items && x in y.deps ensures y !in Replay(trace)[x := st] {
      DependentWaits(items, trace, x, y);
    }
  }

  /** When the first job to complete among settled ones does so, whatever becomes ready depends on it. */
  lemma ReadyOnCompletion(items: seq<Job>, s: Statuses, x: Job, st: Status)
    requires !Terminal(s, x) && Final(st) && Ready(items, s) <= {x}
    ensures forall j :: j in Ready(items, s[x := st]) ==> x in j.deps
  {
    ReadyAfterFinal(items, s, x, st);
  }

  // ---- cascades ----

  /** Only waiting jobs have been cancelled, each of them with complete dependencies. */
  ghost predicate CancelledSome(items: seq<Job>, s: Statuses, t: Statuses) {
    && (forall j :: j in s ==> j in t && t[j] == s[j])
    && (forall j :: j in t && j !in s ==> j in items && t[j] == K && DepsDone(items, t, j))
  }

  /** What cancelling everything that becomes ready leads to: moreover no job is ready any more. */
  ghost predicate Cascade(items: seq<Job>, s: Statuses, t: Statuses) {
    CancelledSome(items, s, t) && Ready(items, t) == {}
  }

  lemma CancelOneMore(items: seq<Job>, s: Statuses, t: Statuses, x: Job)
    requires CancelledSome(items, s, t) && x in Ready(items, t)
    ensures CancelledSome(items, s, t[x := K])
  {
    assert Continues(t, t[x := K]);
    forall j | j in t[x := K] && j !in s ensures DepsDone(items, t[x := K], j) {
      assert DepsDone(items, t, j);
    }
  }

  /** Cancelling a ready job makes exactly those further jobs ready that depend on it and on nothing outstanding. */
  lemma ReadyAfterCancel(items: seq<Job>, s: Statuses, x: Job)
    requires x in Ready(items, s)
    ensures var newly := set j | j in Ready(items, s[x := K]) && x in j.deps;
            Ready(items, s[x := K]) == Ready(items, s) - {x} + newly && Ready(items, s) !! newly
  {
    ReadyAfterFinal(items, s, x, K);
    forall j: Job | x in j.deps ensures j !in Ready(items, s) {
      assert !Terminal(s, x);
    }
  }

  /** The outcome of a cascade does not depend on the order of cancellations. */
  lemma CascadeUnique(items: seq<Job>, s: Statuses, t: Statuses, u: Statuses)
    requires Cascade(items, s, t) && Cascade(items, s, u)
    ensures t == u
  {
    forall j | j in t ensures j in u && u[j] == t[j] { CascadeWithin(items, s, t, u, j); }
    forall j | j in u ensures j in t { CascadeWithin(items, s, u, t, j); }
  }

  lemma {:induction false} CascadeWithin(items: seq<Job>, s: Statuses, t: Statuses, u: Statuses, j: Job)
    requires Cascade(items, s, t) && Cascade(items, s, u) && j in t
    ensures j in u && u[j] == t[j]
    decreases j
  {
    if j !in s {
      forall d | d in j.deps && d in items ensures Terminal(u, d) {
        assert Terminal(t, d);
        CascadeWithin(items, s, t, u, d);
      }
      assert j !in Ready(items, u);
    }
  }

  // ---- why every job before the last target needs a dependent ----

  /** The events that are left without interrupts and failed launches, whatever the order of the queues and the number
      of slots: ready jobs are queued first; only queued and running jobs move, and a queued job is cancelled only if it
      may not run. */
  ghost predicate Ordinary(items: seq<Job>, s: Statuses, e: Event) {
    && LegalEvent(items, s, e)
    && (e.status == Q || (
          && Ready(items, s) == {} && e.job in s
          && (e.status == K && s[e.job] == Q ==> !MayRun(items, s, e.job))))
  }

  ghost predicate Undisturbed(items: seq<Job>, trace: seq<Event>) {
    trace == [] ||
    (var l := |trace| - 1; Undisturbed(items, trace[..l]) && Ordinary(items, Replay(trace[..l]), trace[l]))
  }

  lemma {:induction false} UndisturbedIsLegal(items: seq<Job>, trace: seq<Event>)
    requires Undisturbed(items, trace)
    ensures Legal(items, trace)
  {
    if trace != [] { UndisturbedIsLegal(items, trace[..|trace| - 1]); }
  }

  lemma UndisturbedMore(items: seq<Job>, trace: seq<Event>, e: Event)
    requires Undisturbed(items, trace) && Ordinary(items, Replay(trace), e)
    ensures Undisturbed(items, trace + [e]) && Replay(trace + [e]) == Replay(trace)[e.job := e.status]
  {
    assert (trace + [e])[..|trace|] == trace;
  }

  /** x completes now, and its cfg has no waiting job in target t, so that the cfg has no key there. */
  ghost predicate LookupFails(items: seq<Job>, x: Job, t: Target, trace: seq<Event>, st: Status) {
    && Final(st) && LegalEvent(items, Replay(trace), Event(x, st))
    && forall y :: y in items && y.target == t && y.cfg == x.cfg ==> y in Replay(trace)
  }

  /** Waiting, or queued: x has not been dispatched. */
  predicate Held(s: Statuses, x: Job) {
    x in s ==> s[x] == Q
  }

  /** The next event of an ordinary history in which x is left in its queue. */
  ghost predicate Moves(items: seq<Job>, s: Statuses, x: Job, e: Event) {
    && Ordinary(items, s, e) && (e.job == x ==> e.status == Q)
    && Stage(s[e.job := e.status], e.job) < Stage(s, e.job)
  }

  lemma MoveOthers(items: seq<Job>, s: Statuses, x: Job) returns (e: Event)
    requires Held(s, x) && forall y :: y in s ==> y in items
    requires Ready(items, s) != {} || exists y :: y in s && y != x && !Final(s[y])
    ensures Moves(items, s, x, e)
  {
    if j :| j in Ready(items, s) {
      e := Event(j, Q);
    } else {
      var j :| j in s && j != x && !Final(s[j]);
      e := Event(j, if s[j] == D then F else if MayRun(items, s, j) then D else K);
    }
  }

  /** As long as anything but x can move, an ordinary history can go on without dispatching x. */
  lemma {:induction false} FinishOthers(items: seq<Job>, before: seq<Event>, x: Job) returns (trace: seq<Event>)
    requires Undisturbed(items, before) && Held(Replay(before), x)
    ensures Undisturbed(items, trace) && Held(Replay(trace), x) && Ready(items, Replay(trace)) == {}
    ensures forall y :: y in Replay(trace) && y != x ==> Final(Replay(trace)[y])
    decreases Work(items, Replay(before))
  {
    var s := Replay(before);
    if Ready(items, s) != {} || exists y :: y in s && y != x && !Final(s[y]) {
      StartedAreItems(items, before);
      var e := MoveOthers(items, s, x);
      hide Ordinary, Undisturbed, Replay, Ready;
      WorkFalls(items, s, e);
      assert e.job in items by { OrdinaryItem(items, s, e); }
      UndisturbedMore(items, before, e);
      trace := FinishOthers(items, before + [e], x);
    } else {
      trace := before;
    }
  }

  lemma OrdinaryItem(items: seq<Job>, s: Statuses, e: Event)
    requires Ordinary(items, s, e)
    ensures e.job in items
  {
  }

  lemma StartedAreItems(items: seq<Job>, trace: seq<Event>)
    requires Undisturbed(items, trace)
    ensures forall y :: y in Replay(trace) ==> y in items
  {
    UndisturbedIsLegal(items, trace);
    forall y | y in Replay(trace) ensures y in items { StartedDepsDone(items, trace, y); }
  }

  /** If nothing depends on x, everything else is complete by then. */
  lemma {:induction false} OthersComplete(items: seq<Job>, s: Statuses, x: Job, j: Job)
    requires Ready(items, s) == {} && j in items && j != x && forall y :: y in items ==> x !in y.deps
    requires forall y :: y in s && y != x ==> Final(s[y])
    ensures Terminal(s, j)
    decreases j
  {
    forall d | d in j.deps && d in items ensures Terminal(s, d) { OthersComplete(items, s, x, d); }
    assert j in s || j in Ready(items, s);
  }

  /** Then x has been queued; it is dispatched and fails, or is cancelled if it may not run. */
  lemma CompleteLast(items: seq<Job>, before: seq<Event>, x: Job) returns (trace: seq<Event>, st: Status)
    requires Undisturbed(items, before) && x in items && x in Replay(before) && Replay(before)[x] == Q
    requires Ready(items, Replay(before)) == {}
    ensures Undisturbed(items, trace) && Ordinary(items, Replay(trace), Event(x, st)) && Final(st)
    ensures forall y :: y in Replay(before) ==> y in Replay(trace)
  {
    var s := Replay(before);
    if MayRun(items, s, x) {
      ReadyAfterActive(items, s, x, D);
      UndisturbedMore(items, before, Event(x, D));
      trace, st := before + [Event(x, D)], F;
    } else {
      trace, st := before, K;
    }
  }

  /** Without a dependent, some ordinary history comes to a failing lookup. */
  lemma LookupCanFail(items: seq<Job>, x: Job, t: Target) returns (trace: seq<Event>, st: Status)
    requires x in items && x.target != t && forall y :: y in items ==> x !in y.deps
    ensures Undisturbed(items, trace + [Event(x, st)]) && Undisturbed(items, trace)
    ensures LookupFails(items, x, t, trace, st)
  {
    var before := FinishOthers(items, [], x);
    NotOwnDependency(x);
    var s := Replay(before);
    forall j | j in items && j != x ensures Terminal(s, j) { OthersComplete(items, s, x, j); }
    assert x in s || x in Ready(items, s);
    trace, st := CompleteLast(items, before, x);
    UndisturbedMore(items, trace, Event(x, st));
  }

  /** The lookup of a completed job's cfg in the next target succeeds in every history if and only if the job has a
      dependent, and it is the same among the histories without interrupts and failed launches. `SchedulerRuns` decides
      it for runs, in which queues are in order and slots are limited. */
  lemma LookupNeedsDependent(items: seq<Job>, x: Job, t: Target)
    requires forall j, d :: j in items && d in j.deps && d in items ==>
               d.cfg == j.cfg && Follows(TargetsOf(items), d.target, j.target)
    requires x in items && Follows(TargetsOf(items), x.target, t)
    ensures (exists y :: y in items && x in y.deps) <==>
              forall trace, st :: Legal(items, trace) ==> !LookupFails(items, x, t, trace, st)
    ensures (exists y :: y in items && x in y.deps) <==>
              forall trace, st :: Undisturbed(items, trace + [Event(x, st)]) && Undisturbed(items, trace) ==>
                !LookupFails(items, x, t, trace, st)
  {
    hide Undisturbed, Legal, LookupFails;
    if y :| y in items && x in y.deps {
      forall trace, st | Legal(items, trace) ensures !LookupFails(items, x, t, trace, st) {
        DependentKeepsKey(items, x, y, t, trace, st);
      }
      forall trace | Undisturbed(items, trace) ensures Legal(items, trace) { UndisturbedIsLegal(items, trace); }
    } else {
      var trace, st := LookupCanFail(items, x, t);
      UndisturbedIsLegal(items, trace);
    }
  }

  lemma DependentKeepsKey(items: seq<Job>, x: Job, y: Job, t: Target, trace: seq<Event>, st: Status)
    requires x in items && y in items && x in y.deps && y.cfg == x.cfg && Legal(items, trace)
    requires Follows(TargetsOf(items), x.target, y.target) && Follows(TargetsOf(items), x.target, t)
    ensures !LookupFails(items, x, t, trace, st)
  {
    if LookupFails(items, x, t, trace, st) { DependentWaits(items, trace, x, y); }
    assert y.target == TargetsOf(items)[Index(TargetsOf(items), t)];
  }
}
