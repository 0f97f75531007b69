/** Every job is in exactly one place, and each move of a job keeps it so. */
module SchedulerPlaces {
  import opened Wrappers
  import opened SchedulerProtocol
  import opened SchedulerBoxes

  datatype Places = Places(
    scheduled: Waiting, queued: Lists, running: Lists, passed: Sets, failed: Sets, killed: Sets)

  /** The containers agree with the statuses, except that the queued jobs in limbo are in no container. */
  ghost predicate Placed(items: seq<Job>, s: Statuses, limbo: set<Job>, p: Places) {
    && (forall j :: j in limbo ==> j in items && j in s && s[j] == Q)
    && WaitBox(items, s, p.scheduled)
    && ListBox(items, s, p.queued, Q, limbo)
    && ListBox(items, s, p.running, D, {})
    && SetBox(items, s, p.passed, P)
    && SetBox(items, s, p.failed, F)
    && SetBox(items, s, p.killed, K)
  }

  predicate HasKey(p: Places, t: Target) {
    t in p.scheduled && t in p.queued && t in p.running && t in p.passed && t in p.failed && t in p.killed
  }

  function SetList(l: Lists, t: Target, rest: seq<Job>): Lists
    requires t in l
  {
    l[t := rest]
  }

  function Append(l: Lists, x: Job): Lists
    requires x.target in l
  {
    l[x.target := l[x.target] + [x]]
  }

  function Put(b: Sets, x: Job): Sets
    requires x.target in b
  {
    b[x.target := b[x.target] + {x}]
  }

  function Unwait(w: Waiting, x: Job): Waiting
    requires x.target in w
  {
    w[x.target := Without(w[x.target], x)]
  }

  /** Every job's target is a key of every container. */
  lemma PlacedKeys(items: seq<Job>, s: Statuses, limbo: set<Job>, p: Places)
    requires Placed(items, s, limbo, p)
    ensures forall x :: x in items ==> HasKey(p, x.target)
    ensures forall t :: t in TargetsOf(items) ==> HasKey(p, t)
  {
    TargetsOfSpec(items);
  }

  /** Conservation: the waiting, queued, running, passed, failed and killed jobs of a target add up to all of them. */
  lemma CountsAddUp(items: seq<Job>, s: Statuses, p: Places, t: Target)
    requires Placed(items, s, {}, p) && t in TargetsOf(items)
    ensures HasKey(p, t)
    ensures |OfTarget(items, t)| == TotalLen(p.scheduled[t]) + |p.queued[t]| + |p.running[t]|
                                  + |p.passed[t]| + |p.failed[t]| + |p.killed[t]|
  {
    hide At, Unstarted, OfTarget, HoldsByCfg, Holds;
    PlacedKeys(items, s, {}, p);
    CountByStatus(items, s, t);
    TotalByCfg(p.scheduled[t], Unstarted(items, s, t));
    HoldsCount(p.queued[t], At(items, s, t, Q) - {});
    HoldsCount(p.running[t], At(items, s, t, D) - {});
  }

  /** Conservation, job by job: the containers of its target show exactly the place its status says. */
  lemma OnePlace(items: seq<Job>, s: Statuses, p: Places, x: Job)
    requires Placed(items, s, {}, p) && x in items
    ensures HasKey(p, x.target)
    ensures x.cfg in p.scheduled[x.target] && x in p.scheduled[x.target][x.cfg] <==> x !in s
    ensures x in p.queued[x.target] <==> x in s && s[x] == Q
    ensures x in p.running[x.target] <==> x in s && s[x] == D
    ensures x in p.passed[x.target] <==> x in s && s[x] == P
    ensures x in p.failed[x.target] <==> x in s && s[x] == F
    ensures x in p.killed[x.target] <==> x in s && s[x] == K
  {
    hide InOrder, TargetsOf;
    PlacedKeysAt(items, s, {}, p, x);
  }

  ghost function RunningJobs(items: seq<Job>, s: Statuses): set<Job> {
    set j | j in items && j in s && s[j] == D
  }

  /** As many jobs are on the running lists as have that status. */
  lemma RunningCount(items: seq<Job>, s: Statuses, limbo: set<Job>, p: Places)
    requires Placed(items, s, limbo, p)
    ensures TotalLen(p.running) == |RunningJobs(items, s)|
  {
    hide WaitBox, SetBox;
    TargetsOfSpec(items);
    forall t | t in p.running
      ensures At(items, s, t, D) - {} == set j | j in RunningJobs(items, s) && j.target == t {}
    TotalByTarget(p.running, RunningJobs(items, s));
  }

  // ---- the start ----

  function AddWaiting(w: Waiting, x: Job): Waiting {
    var m: map<Cfg, seq<Job>> := if x.target in w then w[x.target] else map[];
    w[x.target := AddByCfg(m, x)]
  }

  function AddByCfg(m: map<Cfg, seq<Job>>, x: Job): map<Cfg, seq<Job>> {
    var l := if x.cfg in m then m[x.cfg] else [];
    m[x.cfg := if x in l then l else l + [x]]
  }

  lemma TargetsOfMore(before: seq<Job>, x: Job)
    ensures TargetsOf(before + [x]) ==
      if x.target in TargetsOf(before) then TargetsOf(before) else TargetsOf(before) + [x.target]
  {
    assert (before + [x])[..|before|] == before;
  }

  lemma AddWaitingKeeps(before: seq<Job>, w: Waiting, x: Job)
    requires WaitBox(before, map[], w)
    ensures WaitBox(before + [x], map[], AddWaiting(w, x))
  {
    hide HoldsByCfg, TargetsOf, InOrder, AddByCfg;
    TargetsOfMore(before, x);
    TargetsOfSpec(before);
    var was := Unstarted(before, map[], x.target);
    if x.target !in w {
      assert was == {};
      HoldsByCfgNone();
    }
    HoldsByCfgAdd(if x.target in w then w[x.target] else map[], was, x);
    UnstartedMore(before, x);
    AddInOrder(before, w, x);
  }

  lemma UnstartedMore(before: seq<Job>, x: Job)
    ensures forall t ::
      Unstarted(before + [x], map[], t) ==
      (if t == x.target then Unstarted(before, map[], t) + {x} else Unstarted(before, map[], t))
  {
    forall t ensures Unstarted(before + [x], map[], t) ==
      if t == x.target then Unstarted(before, map[], t) + {x} else Unstarted(before, map[], t) {}
  }

  lemma AddInOrder(before: seq<Job>, w: Waiting, x: Job)
    requires WaitBox(before, map[], w)
    ensures InOrder(before + [x], map[], AddWaiting(w, x))
  {
    hide TargetsOf, Holds;
    var now := AddWaiting(w, x);
    assert (before + [x])[..|before|] == before;
    forall t, c | t in now && c in now[t] ensures now[t][c] == WaitingList(before + [x], map[], t, c) {
      WaitingListMembers(before, map[], t, c);
      if t == x.target && c == x.cfg && !(t in w && c in w[t]) {
        NoneWaiting(before, w, t, c);
      }
    }
  }

  lemma NoneWaiting(before: seq<Job>, w: Waiting, t: Target, c: Cfg)
    requires WaitBox(before, map[], w) && !(t in w && c in w[t])
    ensures WaitingList(before, map[], t, c) == []
  {
    var l := WaitingList(before, map[], t, c);
    assert l != [] ==> l[0] in l;
    WaitingListMembers(before, map[], t, c);
    TargetsOfSpec(before);
    forall j | j in before && j.target == t ensures t in w && j.cfg in w[t] {
      assert j in Unstarted(before, map[], t);
    }
  }

  lemma HoldsByCfgNone()
    ensures HoldsByCfg(map[], {})
  {
  }

  lemma HoldsByCfgAdd(m: map<Cfg, seq<Job>>, js: set<Job>, x: Job)
    requires HoldsByCfg(m, js)
    ensures HoldsByCfg(AddByCfg(m, x), js + {x})
  {
  }

  lemma NothingWaits()
    ensures WaitBox([], map[], map[]) && TargetsOf([]) == []
  {
  }

  lemma WaitBoxKeys(items: seq<Job>, w: Waiting)
    requires WaitBox(items, map[], w)
    ensures forall t :: t in w <==> t in TargetsOf(items)
  {
  }

  lemma TotalAtStart(items: seq<Job>, w: Waiting, t: Target)
    requires WaitBox(items, map[], w) && t in TargetsOf(items)
    ensures t in w && TotalLen(w[t]) == |OfTarget(items, t)|
  {
    TotalByCfg(w[t], Unstarted(items, map[], t));
    assert Unstarted(items, map[], t) == OfTarget(items, t);
  }

  ghost predicate AllEmpty(box: Lists, keys: seq<Target>) {
    (forall t :: t in box <==> t in keys) && forall t :: t in box ==> box[t] == []
  }

  ghost predicate NoneThere(box: Sets, keys: seq<Target>) {
    (forall t :: t in box <==> t in keys) && forall t :: t in box ==> box[t] == {}
  }

  ghost predicate Totals(items: seq<Job>, total: map<Target, nat>, keys: seq<Target>) {
    (forall t :: t in total <==> t in keys) && forall t :: t in total ==> total[t] == |OfTarget(items, t)|
  }

  ghost predicate Starting(last: map<Target, int>, keys: seq<Target>) {
    (forall t :: t in last <==> t in keys) && forall t :: t in last ==> last[t] == -1
  }

  lemma NoKeys(items: seq<Job>)
    ensures AllEmpty(map[], []) && NoneThere(map[], []) && Totals(items, map[], []) && Starting(map[], [])
  {
  }

  lemma TotalsMore(items: seq<Job>, total: map<Target, nat>, last: map<Target, int>, keys: seq<Target>, n: nat)
    requires n < |keys| && Totals(items, total, keys[..n]) && Starting(last, keys[..n])
    ensures Totals(items, total[keys[n] := |OfTarget(items, keys[n])|], keys[..n + 1])
    ensures Starting(last[keys[n] := -1], keys[..n + 1])
  {
    assert keys[..n + 1] == keys[..n] + [keys[n]];
  }

  lemma EmptyMore(queued: Lists, killed: Sets, keys: seq<Target>, n: nat)
    requires n < |keys| && AllEmpty(queued, keys[..n]) && NoneThere(killed, keys[..n])
    ensures AllEmpty(queued[keys[n] := []], keys[..n + 1]) && NoneThere(killed[keys[n] := {}], keys[..n + 1])
  {
    assert keys[..n + 1] == keys[..n] + [keys[n]];
  }

  /** Nothing has started and every other container is empty. */
  lemma PlacedAtStart(items: seq<Job>, p: Places)
    requires WaitBox(items, map[], p.scheduled)
    requires AllEmpty(p.queued, TargetsOf(items)) && AllEmpty(p.running, TargetsOf(items))
    requires NoneThere(p.passed, TargetsOf(items)) && NoneThere(p.failed, TargetsOf(items))
    requires NoneThere(p.killed, TargetsOf(items))
    ensures Placed(items, map[], {}, p)
  {
    hide TargetsOf;
    EmptyLists(items, p.queued, Q);
    EmptyLists(items, p.running, D);
    EmptySets(items, p.passed, P);
    EmptySets(items, p.failed, F);
    EmptySets(items, p.killed, K);
  }

  lemma EmptyLists(items: seq<Job>, box: Lists, st: Status)
    requires AllEmpty(box, TargetsOf(items))
    ensures ListBox(items, map[], box, st, {})
  {
    hide TargetsOf;
    forall t ensures At(items, map[], t, st) == {} {}
  }

  lemma EmptySets(items: seq<Job>, box: Sets, st: Status)
    requires NoneThere(box, TargetsOf(items))
    ensures SetBox(items, map[], box, st)
  {
    hide TargetsOf;
    forall t ensures At(items, map[], t, st) == {} {}
  }

  // ---- moves ----

  function Queued(p: Places, x: Job): Places
    requires HasKey(p, x.target)
  {
    p.(scheduled := Unwait(p.scheduled, x), queued := Append(p.queued, x))
  }

  /** From waiting to queued. */
  lemma Queue(items: seq<Job>, s: Statuses, limbo: set<Job>, p: Places, x: Job)
    requires Placed(items, s, limbo, p) && x in items && x !in s
    ensures HasKey(p, x.target) && x !in p.queued[x.target]
    ensures Placed(items, s[x := Q], limbo, Queued(p, x))
  {
    hide ListBox, SetBox, WaitBox;
    PlacedKeysAt(items, s, limbo, p, x);
    WaitDrop(items, s, p.scheduled, x, Q);
    ListAdd(items, s, p.queued, Q, limbo, x);
    assert limbo - {x} == limbo;
    ListKeep(items, s, p.running, D, {}, x, Q);
    assert {} - {x} == {};
    SetKeep(items, s, p.passed, P, x, Q);
    SetKeep(items, s, p.failed, F, x, Q);
    SetKeep(items, s, p.killed, K, x, Q);
  }

  lemma PlacedKeysAt(items: seq<Job>, s: Statuses, limbo: set<Job>, p: Places, x: Job)
    requires Placed(items, s, limbo, p) && x in items
    ensures HasKey(p, x.target)
    ensures x in p.queued[x.target] <==> x in s && s[x] == Q && x !in limbo
    ensures x in p.running[x.target] <==> x in s && s[x] == D
    ensures x !in s ==> x.cfg in p.scheduled[x.target] && x in p.scheduled[x.target][x.cfg]
    ensures x in s ==> Without(p.scheduled[x.target], x) == p.scheduled[x.target]
  {
    PlacedKeys(items, s, limbo, p);
    HoldsByCfgWithout(p.scheduled[x.target], Unstarted(items, s, x.target), x);
  }

  /** From waiting straight to killed. */
  lemma CancelWaiting(items: seq<Job>, s: Statuses, limbo: set<Job>, p: Places, x: Job)
    requires Placed(items, s, limbo, p) && x in items && x !in s
    ensures x.target in p.scheduled && x.target in p.killed
    ensures Placed(items, s[x := K], limbo, p.(scheduled := Unwait(p.scheduled, x), killed := Put(p.killed, x)))
  {
    hide ListBox, SetBox, WaitBox;
    PlacedKeysAt(items, s, limbo, p, x);
    WaitDrop(items, s, p.scheduled, x, K);
    ListKeep(items, s, p.queued, Q, limbo, x, K);
    assert limbo - {x} == limbo;
    ListKeep(items, s, p.running, D, {}, x, K);
    assert {} - {x} == {};
    SetKeep(items, s, p.passed, P, x, K);
    SetKeep(items, s, p.failed, F, x, K);
    SetAdd(items, s, p.killed, K, x);
  }

  /** From the queue to killed. */
  lemma CancelQueued(items: seq<Job>, s: Statuses, limbo: set<Job>, p: Places, x: Job)
    requires Placed(items, s, limbo, p) && x in items && x in s && s[x] == Q && x !in limbo
    ensures x.target in p.queued && x.target in p.killed
    ensures Placed(items, s[x := K], limbo,
              p.(queued := SetList(p.queued, x.target, RemoveFirst(p.queued[x.target], x)), killed := Put(p.killed, x)))
  {
    hide SetBox, WaitBox;
    PlacedKeysAt(items, s, limbo, p, x);
    WaitKeep(items, s, p.scheduled, x, K);
    HoldsRemoveFirst(p.queued[x.target], x, At(items, s, x.target, Q) - limbo);
    ListDrop(items, s, p.queued, Q, limbo, x, K, RemoveFirst(p.queued[x.target], x));
    ListKeep(items, s, p.running, D, {}, x, K);
    assert {} - {x} == {};
    SetKeep(items, s, p.passed, P, x, K);
    SetKeep(items, s, p.failed, F, x, K);
    SetAdd(items, s, p.killed, K, x);
  }

  /** From limbo to killed. */
  lemma CancelPopped(items: seq<Job>, s: Statuses, limbo: set<Job>, p: Places, x: Job)
    requires Placed(items, s, limbo, p) && x in limbo
    ensures x in items && x.target in p.killed
    ensures Placed(items, s[x := K], limbo - {x}, p.(killed := Put(p.killed, x)))
  {
    hide ListBox, SetBox, WaitBox;
    PlacedKeysAt(items, s, limbo, p, x);
    WaitKeep(items, s, p.scheduled, x, K);
    ListKeep(items, s, p.queued, Q, limbo, x, K);
    ListKeep(items, s, p.running, D, {}, x, K);
    assert {} - {x} == {};
    SetKeep(items, s, p.passed, P, x, K);
    SetKeep(items, s, p.failed, F, x, K);
    SetAdd(items, s, p.killed, K, x);
  }

  function Dispatching(p: Places, x: Job): Places
    requires HasKey(p, x.target)
  {
    p.(running := Append(p.running, x))
  }

  /** From limbo to running. */
  lemma Start(items: seq<Job>, s: Statuses, limbo: set<Job>, p: Places, x: Job)
    requires Placed(items, s, limbo, p) && x in limbo
    ensures x in items && HasKey(p, x.target)
    ensures Placed(items, s[x := D], limbo - {x}, Dispatching(p, x))
  {
    hide ListBox, SetBox, WaitBox;
    PlacedKeysAt(items, s, limbo, p, x);
    WaitKeep(items, s, p.scheduled, x, D);
    ListKeep(items, s, p.queued, Q, limbo, x, D);
    ListAdd(items, s, p.running, D, {}, x);
    assert {} - {x} == {};
    SetKeep(items, s, p.passed, P, x, D);
    SetKeep(items, s, p.failed, F, x, D);
    SetKeep(items, s, p.killed, K, x, D);
  }

  /** From the head of the queue into limbo. */
  lemma Pop(items: seq<Job>, s: Statuses, limbo: set<Job>, p: Places, t: Target)
    requires Placed(items, s, limbo, p) && t in p.queued && p.queued[t] != []
    ensures var x := p.queued[t][0];
            && x in items && x in s && s[x] == Q && x.target == t && x !in limbo
            && Placed(items, s, limbo + {x}, p.(queued := SetList(p.queued, t, p.queued[t][1..])))
  {
    hide SetBox, WaitBox;
    ListToLimbo(items, s, p.queued, Q, limbo, t);
  }

  function Finished(p: Places, x: Job, i: nat, st: Status): Places
    requires HasKey(p, x.target) && i < |p.running[x.target]|
  {
    p.(running := SetList(p.running, x.target, RemoveAt(p.running[x.target], i)),
       passed := if st == P then Put(p.passed, x) else p.passed,
       failed := if st == F then Put(p.failed, x) else p.failed,
       killed := if st == K then Put(p.killed, x) else p.killed)
  }

  /** From running to the set of a final status. */
  lemma Finish(items: seq<Job>, s: Statuses, limbo: set<Job>, p: Places, x: Job, i: nat, st: Status)
    requires Placed(items, s, limbo, p) && x.target in p.running && i < |p.running[x.target]|
    requires p.running[x.target][i] == x && Final(st)
    ensures x in items && x in s && s[x] == D
    ensures HasKey(p, x.target) && Placed(items, s[x := st], limbo, Finished(p, x, i, st))
  {
    hide SetBox, WaitBox;
    assert x in p.running[x.target];
    PlacedKeysAt(items, s, limbo, p, x);
    WaitKeep(items, s, p.scheduled, x, st);
    ListKeep(items, s, p.queued, Q, limbo, x, st);
    assert limbo - {x} == limbo;
    HoldsRemoveAt(p.running[x.target], i, At(items, s, x.target, D) - {});
    ListDrop(items, s, p.running, D, {}, x, st, RemoveAt(p.running[x.target], i));
    if st == P { SetAdd(items, s, p.passed, P, x); } else { SetKeep(items, s, p.passed, P, x, st); }
    if st == F { SetAdd(items, s, p.failed, F, x); } else { SetKeep(items, s, p.failed, F, x, st); }
    if st == K { SetAdd(items, s, p.killed, K, x); } else { SetKeep(items, s, p.killed, K, x, st); }
  }

  // ---- successors ----

  lemma LastHasNoSuccessors(items: seq<Job>, x: Job)
    requires Graph(items) && x in items && x.target == TargetsOf(items)[|TargetsOf(items)| - 1]
    ensures forall y :: y in items ==> x !in y.deps
  {
    var ts := TargetsOf(items);
    TargetsOfSpec(items);
    IndexOfDistinct(ts, |ts| - 1);
  }

  lemma FollowsOne(ts: seq<Target>, a: Target, b: Target, c: Target)
    requires Follows(ts, a, b) && Follows(ts, a, c)
    ensures b == c
  {
    assert b == ts[Index(ts, b)];
  }

  lemma FollowsEnds(ts: seq<Target>, a: Target, b: Target)
    requires Distinct(ts) && Follows(ts, a, b)
    ensures ts != [] && a != ts[|ts| - 1] && b != ts[0]
  {
    IndexOfDistinct(ts, 0);
    IndexOfDistinct(ts, |ts| - 1);
  }

  /** The completed job's dependents are where the scheduler looks for them: in the same cfg of the next target, of
      which at least one is still waiting. */
  lemma SuccessorsNext(items: seq<Job>, s: Statuses, x: Job, t: Target)
    requires Graph(items) && JustCompleted(items, s, x) && Follows(TargetsOf(items), x.target, t)
    ensures exists y :: y in items && y !in s && y.target == t && y.cfg == x.cfg
    ensures forall y :: y in items && x in y.deps ==> y.target == t && y.cfg == x.cfg
    ensures forall y :: y in items && y.target == t ==> y.deps != []
  {
    hide Graph, TargetsOf, Terminal, Follows;
    var ts := TargetsOf(items);
    TargetsOfSpec(items);
    FollowsEnds(ts, x.target, t);
    forall y | y in items && x in y.deps ensures y.target == t && y.cfg == x.cfg {
      GraphDependency(items, y, x);
      FollowsOne(ts, x.target, y.target, t);
    }
    forall y | y in items && y.target == t ensures y.deps != [] { GraphHasDependency(items, y); }
    var y := GraphDependent(items, x);
  }

  /** The work list of a cascade holds exactly the ready jobs. */
  lemma CancelKeepsWorkList(items: seq<Job>, s: Statuses, work: seq<Job>, x: Job, more: seq<Job>)
    requires Holds(work + [x], Ready(items, s))
    requires Holds(more, set j | j in Ready(items, s[x := K]) && x in j.deps)
    ensures Holds(work + more, Ready(items, s[x := K]))
  {
    hide Ready;
    var n := |work|;
    assert x == (work + [x])[n] && work == (work + [x])[..n];
    assert x in Ready(items, s);
    ReadyAfterCancel(items, s, x);
    DistinctConcat(work, more);
    assert forall j :: j in work ==> j in work + [x];
    assert x !in work;
  }

  function KilledRunning(p: Places, x: Job): Places
    requires HasKey(p, x.target)
  {
    p.(running := SetList(p.running, x.target, RemoveFirst(p.running[x.target], x)), killed := Put(p.killed, x))
  }

  lemma KillRunning(items: seq<Job>, s: Statuses, limbo: set<Job>, p: Places, x: Job)
    requires Placed(items, s, limbo, p) && x in items && x in s && s[x] == D
    ensures HasKey(p, x.target) && x in p.running[x.target]
    ensures Placed(items, s[x := K], limbo, KilledRunning(p, x))
  {
    hide WaitBox, SetBox;
    PlacedKeysAt(items, s, limbo, p, x);
    var l := p.running[x.target];
    var i :| 0 <= i < |l| && l[i] == x;
    RemoveFirstIsRemoveAt(l, i);
    Finish(items, s, limbo, p, x, i, K);
  }

  lemma ReadyWaits(items: seq<Job>, s: Statuses, limbo: set<Job>, p: Places, x: Job)
    requires Placed(items, s, limbo, p) && x in Ready(items, s)
    ensures x in items && x !in s && DepsDone(items, s, x)
    ensures limbo - {x} == limbo && x.target in p.queued && x !in p.queued[x.target]
  {
    hide WaitBox, ListBox, SetBox;
    PlacedKeysAt(items, s, limbo, p, x);
  }

  /** Cancelling, wherever the job is: it goes to the killed jobs and leaves its queue or else the waiting jobs. */
  function Cancelled(p: Places, x: Job): Places
    requires HasKey(p, x.target)
  {
    if x in p.queued[x.target] then
      p.(queued := SetList(p.queued, x.target, RemoveFirst(p.queued[x.target], x)), killed := Put(p.killed, x))
    else
      p.(scheduled := Unwait(p.scheduled, x), killed := Put(p.killed, x))
  }

  lemma CancelAnywhere(items: seq<Job>, s: Statuses, limbo: set<Job>, p: Places, x: Job)
    requires Placed(items, s, limbo, p) && x in items && (x in s ==> s[x] == Q)
    ensures HasKey(p, x.target) && Placed(items, s[x := K], limbo - {x}, Cancelled(p, x))
  {
    hide WaitBox, ListBox, SetBox;
    PlacedKeysAt(items, s, limbo, p, x);
    if x !in s {
      assert limbo - {x} == limbo;
      CancelWaiting(items, s, limbo, p, x);
    } else if x in limbo {
      assert Unwait(p.scheduled, x) == p.scheduled;
      CancelPopped(items, s, limbo, p, x);
    } else {
      assert limbo - {x} == limbo;
      CancelQueued(items, s, limbo, p, x);
    }
  }

  /** All jobs on the lists of the first targets, in order. */
  function Flat(ts: seq<Target>, box: Lists): seq<Job> {
    if ts == [] then []
    else
      var t := ts[|ts| - 1];
      Flat(ts[..|ts| - 1], box) + if t in box then box[t] else []
  }

  lemma FlatMore(ts: seq<Target>, box: Lists, i: nat)
    requires i < |ts| && ts[i] in box
    ensures Flat(ts[..i + 1], box) == Flat(ts[..i], box) + box[ts[i]]
  {
    assert ts[..i + 1][..i] == ts[..i];
  }

  /** With empty queues, nothing running and nothing ready, every job is complete. */
  lemma AllKilled(items: seq<Job>, s: Statuses, p: Places)
    requires Graph(items) && Placed(items, s, {}, p) && Ready(items, s) == {}
    requires forall t :: t in TargetsOf(items) ==> t in p.queued && p.queued[t] == []
    requires forall t :: t in TargetsOf(items) ==> t in p.running && p.running[t] == []
    ensures AllTerminal(items, s)
  {
    hide WaitBox, ListBox, SetBox, Graph, Ready;
    TargetsOfSpec(items);
    forall x | x in items && x in s ensures Final(s[x]) { PlacedKeysAt(items, s, {}, p, x); }
    forall x | x in items ensures Terminal(s, x) { NothingStuck(items, s, x); }
  }

  lemma QueuedJob(items: seq<Job>, s: Statuses, limbo: set<Job>, p: Places, t: Target, i: nat)
    requires Placed(items, s, limbo, p) && t in p.queued && i < |p.queued[t]|
    ensures var x := p.queued[t][i]; x in items && x in s && s[x] == Q && x.target == t && x !in limbo
  {
    assert p.queued[t][i] in p.queued[t];
  }

  lemma RunningJob(items: seq<Job>, s: Statuses, limbo: set<Job>, p: Places, t: Target, i: nat)
    requires Placed(items, s, limbo, p) && t in p.running && i < |p.running[t]|
    ensures var x := p.running[t][i]; x in items && x in s && s[x] == D && x.target == t
  {
    assert p.running[t][i] in p.running[t];
  }

  function Cleared(box: Lists, ts: seq<Target>): Lists {
    map t | t in box :: if t in ts then [] else box[t]
  }

  lemma ClearedMore(box: Lists, ts: seq<Target>, i: nat)
    requires Distinct(ts) && i < |ts| && ts[i] in box
    ensures Cleared(box, ts[..i])[ts[i]] == box[ts[i]]
    ensures Cleared(box, ts[..i])[ts[i] := []] == Cleared(box, ts[..i + 1])
  {
    assert ts[..i + 1] == ts[..i] + [ts[i]];
  }

  lemma NoneCleared(box: Lists)
    ensures Cleared(box, []) == box && Flat([], box) == []
  {
  }

  lemma AllCleared(box: Lists, ts: seq<Target>)
    requires forall t :: t in ts ==> t in box
    ensures forall t :: t in ts ==> t in Cleared(box, ts) && Cleared(box, ts)[t] == []
  {
  }

  // ---- weights ----

  function HeadWeight(queued: Lists, t: Target): nat {
    if t in queued && queued[t] != [] then queued[t][0].weight else 0
  }

  /** The weights at the heads of the queues that are not empty. */
  function HeadWeights(ts: seq<Target>, queued: Lists): nat {
    if ts == [] then 0 else HeadWeights(ts[..|ts| - 1], queued) + HeadWeight(queued, ts[|ts| - 1])
  }

  lemma HeadWeightsMore(ts: seq<Target>, queued: Lists, i: nat)
    requires i < |ts|
    ensures HeadWeights(ts[..i + 1], queued) == HeadWeights(ts[..i], queued) + HeadWeight(queued, ts[i])
  {
    assert ts[..i + 1][..i] == ts[..i];
  }

  lemma PoppedJob(items: seq<Job>, s: Statuses, limbo: set<Job>, p: Places, x: Job)
    requires Placed(items, s, limbo, p) && x in limbo
    ensures x in items && x in s && s[x] == Q
    ensures x.target in p.queued && x !in p.queued[x.target]
  {
    hide WaitBox, ListBox, SetBox;
    PlacedKeysAt(items, s, limbo, p, x);
  }

  lemma {:induction false} HeadWeightsAtLeast(ts: seq<Target>, queued: Lists, i: nat)
    requires i < |ts|
    ensures HeadWeights(ts, queued) >= HeadWeight(queued, ts[i])
  {
    if i < |ts| - 1 { HeadWeightsAtLeast(ts[..|ts| - 1], queued, i); }
  }

  // ---- batches ----

  ghost function SetOf(l: seq<Job>): (r: set<Job>)
    ensures forall j :: j in l <==> j in r
  {
    set j | j in l
  }

  lemma SetOfNone()
    ensures SetOf([]) == {}
  {
  }

  lemma SetOfMore(l: seq<Job>, x: Job)
    ensures SetOf(l + [x]) == SetOf(l) + {x}
  {
  }

  lemma SetOfRest(l: seq<Job>, i: nat)
    requires Distinct(l) && i < |l|
    ensures l[i] in SetOf(l[i..]) && SetOf(l[i..]) - {l[i]} == SetOf(l[i + 1..])
    ensures l[i] !in l[i + 1..]
  {
    var rest := l[i + 1..];
    assert l[i..] == [l[i]] + rest;
    forall k | 0 <= k < |rest| ensures rest[k] != l[i] {
      assert rest[k] == l[i + 1 + k];
    }
  }

  lemma RemoveFirstLength(l: seq<Job>, x: Job)
    requires x in l
    ensures |RemoveFirst(l, x)| == |l| - 1
  {
    if l[0] != x { RemoveFirstLength(l[1..], x); }
  }

  /** The queue of the next target may have grown; apart from it and the target's own, no queue has changed. */
  ghost predicate OthersGrow(ts: seq<Target>, was: Lists, now: Lists, target: Target) {
    forall t :: t in was ==>
      t in now && (t == target || (was[t] <= now[t] && (Follows(ts, target, t) || now[t] == was[t])))
  }

  lemma GrowNone(ts: seq<Target>, was: Lists, target: Target)
    ensures OthersGrow(ts, was, was, target)
  {
  }

  lemma GrowOn(ts: seq<Target>, was: Lists, mid: Lists, now: Lists, target: Target)
    requires OthersGrow(ts, was, mid, target) && OthersGrow(ts, mid, now, target)
    ensures OthersGrow(ts, was, now, target)
  {
  }

  // ---- being done ----

  /** The jobs of a target are complete exactly when as many are passed, failed or killed as it has. */
  lemma TargetDone(items: seq<Job>, s: Statuses, p: Places, t: Target)
    requires Placed(items, s, {}, p) && t in TargetsOf(items)
    ensures HasKey(p, t) && |OfTarget(items, t)| > 0
    ensures |p.passed[t]| + |p.failed[t]| + |p.killed[t]| == |OfTarget(items, t)|
      <==> forall j :: j in items && j.target == t ==> Terminal(s, j)
  {
    hide Terminal, At, WaitBox, ListBox;
    PlacedKeys(items, s, {}, p);
    FinalByCount(items, s, t);
    TargetsOfSpec(items);
    var j :| j in items && j.target == t;
    assert j in OfTarget(items, t);
  }

  /** While jobs are incomplete, something runs or some queue is not empty. */
  lemma NothingRuns(items: seq<Job>, s: Statuses, p: Places)
    requires Graph(items) && Placed(items, s, {}, p) && Ready(items, s) == {} && !AllTerminal(items, s)
    requires TotalLen(p.running) == 0
    ensures HeadWeights(TargetsOf(items), p.queued) > 0
  {
    hide Graph, Ready, WaitBox, SetBox, ListBox, Placed, AllTerminal, TotalLen, HeadWeights;
    SomethingActive(items, s);
    var j :| j in items && j in s && (s[j] == Q || s[j] == D);
    PlacedKeysAt(items, s, {}, p, j);
    TotalLenZero(p.running);
    assert j in p.queued[j.target];
    TargetsOfSpec(items);
    var ts := TargetsOf(items);
    var i :| 0 <= i < |ts| && ts[i] == j.target;
    QueuedJob(items, s, {}, p, j.target, 0);
    GraphWeights(items, p.queued[j.target][0]);
    HeadWeightsAtLeast(ts, p.queued, i);
  }

  lemma DoneMeansIdle(items: seq<Job>, s: Statuses, p: Places)
    requires Placed(items, s, {}, p) && AllTerminal(items, s)
    ensures TotalLen(p.running) == 0
  {
    hide WaitBox, SetBox, TotalLen;
    TotalLenZero(p.running);
    forall t | t in p.running ensures p.running[t] == [] {
      if p.running[t] != [] { RunningJob(items, s, {}, p, t, 0); }
    }
  }
}
