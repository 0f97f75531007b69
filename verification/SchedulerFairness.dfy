/** Why circular polling starves no running job. */
module SchedulerFairness {
  import opened Wrappers
  import opened SchedulerProtocol
  import opened SchedulerBoxes
  import opened SchedulerPlaces
  import opened SchedulerPolling
  import opened SchedulerQuotas

  // ---- one list ----

  /** The job has been polled since the log was as before. */
  ghost predicate Asked(j: Job, before: seq<Job>, polled: seq<Job>) {
    exists i :: |before| <= i < |polled| && polled[i] == j
  }

  lemma AskedStill(j: Job, before: seq<Job>, polled: seq<Job>, more: seq<Job>)
    requires Asked(j, before, polled) && polled <= more
    ensures Asked(j, before, more)
  {
    var i :| |before| <= i < |polled| && polled[i] == j;
    assert more[i] == j;
  }

  lemma AskedSince(j: Job, before: seq<Job>, polled: seq<Job>, more: seq<Job>)
    requires Asked(j, polled, more) && |before| <= |polled|
    ensures Asked(j, before, more)
  {
  }

  /** How many jobs of the circular list come before position pos. */
  function Gap(n: nat, mark: int, pos: nat): nat
    requires pos < n && mark >= -1
  {
    var next := NextIndex(n, mark);
    if pos >= next then pos - next else pos - next + n
  }

  /** At most g jobs of the list are polled before j. */
  ghost predicate InTurn(list: seq<Job>, mark: int, j: Job, g: nat) {
    mark >= -1 && exists pos :: 0 <= pos < |list| && list[pos] == j && Gap(|list|, mark, pos) <= g
  }

  lemma InTurnMore(list: seq<Job>, mark: int, j: Job, g: nat, h: nat)
    requires InTurn(list, mark, j, g) && g <= h
    ensures InTurn(list, mark, j, h)
  {
  }

  lemma InTurnAtMost(list: seq<Job>, mark: int, j: Job)
    requires j in list && mark >= -1
    ensures InTurn(list, mark, j, |list| - 1)
  {
    var pos :| 0 <= pos < |list| && list[pos] == j;
    assert Gap(|list|, mark, pos) <= |list| - 1;
  }

  /** Polling the next job of the list brings every other one nearer, whether it stays or leaves. */
  lemma PollMoves(list: seq<Job>, mark: int, j: Job, g: nat, list': seq<Job>, mark': int)
    requires InTurn(list, mark, j, g)
    requires var at := NextIndex(|list|, mark);
             (list' == list && mark' == at) || (list' == RemoveAt(list, at) && mark' == at - 1)
    ensures list[NextIndex(|list|, mark)] == j || (g > 0 && InTurn(list', mark', j, g - 1))
  {
    var n, at := |list|, NextIndex(|list|, mark);
    var pos :| 0 <= pos < n && list[pos] == j && Gap(n, mark, pos) <= g;
    if pos != at {
      var pos' := if |list'| == n || pos < at then pos else pos - 1;
      assert list'[pos'] == j;
      assert Gap(|list'|, mark', pos') == Gap(n, mark, pos) - 1;
    }
  }

  /** Jobs added at the end delay a job by no more than their number. */
  lemma AddedMoves(list: seq<Job>, mark: int, j: Job, g: nat, list': seq<Job>)
    requires InTurn(list, mark, j, g) && list <= list'
    ensures InTurn(list', mark, j, g + |list'| - |list|)
  {
    var pos :| 0 <= pos < |list| && list[pos] == j && Gap(|list|, mark, pos) <= g;
    assert list'[pos] == j && Gap(|list'|, mark, pos) <= Gap(|list|, mark, pos) + |list'| - |list|;
  }

  /** p polls of a list: every job of it was polled or is p jobs nearer. */
  ghost predicate Turns(list: seq<Job>, mark: int, list': seq<Job>, mark': int, p: nat, before: seq<Job>,
                        polled: seq<Job>) {
    forall j, g: nat :: InTurn(list, mark, j, g) ==>
      Asked(j, before, polled) || (g >= p && InTurn(list', mark', j, g - p))
  }

  lemma NoTurns(list: seq<Job>, mark: int, polled: seq<Job>)
    ensures Turns(list, mark, list, mark, 0, polled, polled)
  {
  }

  lemma TurnsOn(list: seq<Job>, mark: int, p: nat, before: seq<Job>, polled: seq<Job>,
                mid: seq<Job>, mark1: int, now: seq<Job>, mark2: int, more: seq<Job>)
    requires Turns(list, mark, mid, mark1, p, before, polled) && |before| <= |polled|
    requires mid != [] && mark1 >= -1
    requires var at := NextIndex(|mid|, mark1);
             && more == polled + [mid[at]]
             && ((now == mid && mark2 == at) || (now == RemoveAt(mid, at) && mark2 == at - 1))
    ensures Turns(list, mark, now, mark2, p + 1, before, more)
  {
    hide InTurn, NextIndex, RemoveAt;
    forall j, g: nat | InTurn(list, mark, j, g)
      ensures Asked(j, before, more) || (g >= p + 1 && InTurn(now, mark2, j, g - (p + 1)))
    {
      if Asked(j, before, polled) {
        AskedStill(j, before, polled, more);
      } else {
        PollMoves(mid, mark1, j, g - p, now, mark2);
        if mid[NextIndex(|mid|, mark1)] == j { assert more[|polled|] == j; }
      }
    }
  }

  // ---- all lists ----

  /** How many steps the circular cursor is away from an index. */
  function StepsTo(n: nat, last: int, k: nat): (d: nat)
    requires k < n && -1 <= last < n
    ensures 1 <= d <= n
  {
    if k > last then k - last else k - last + n
  }

  lemma StepsFall(n: nat, last: int, k: nat)
    requires k < n && -1 <= last < n
    ensures var i := NextIndex(n, last); i != k ==> StepsTo(n, i, k) < StepsTo(n, last, k)
  {
  }

  ghost predicate HasTurn(lists: Lists, marks: map<Target, int>, t: Target, j: Job, g: nat) {
    t in lists && t in marks && InTurn(lists[t], marks[t], j, g)
  }

  ghost predicate Nearer(n: nat, start: int, last: int, k: nat, moved: bool) {
    && k < n && -1 <= start < n && -1 <= last < n
    && if moved then StepsTo(n, last, k) < StepsTo(n, start, k) else last == start
  }

  /** The job was polled, or has fewer than g jobs before it, or the cursor has come nearer. */
  ghost predicate Comes(ts: seq<Target>, start: int, before: seq<Job>, now: Lists, marks: map<Target, int>, last: int,
                        polled: seq<Job>, moved: bool, k: nat, j: Job, g: nat)
    requires k < |ts|
  {
    || Asked(j, before, polled)
    || (g > 0 && HasTurn(now, marks, ts[k], j, g - 1))
    || (HasTurn(now, marks, ts[k], j, g) && Nearer(|ts|, start, last, k, moved))
  }

  /** In a round of polls every running job is polled, or has fewer jobs before it on its list, or the cursor has come
      nearer to its target. */
  ghost predicate TurnsCome(ts: seq<Target>, was: Lists, marks: map<Target, int>, start: int, before: seq<Job>,
                            now: Lists, marks': map<Target, int>, last: int, polled: seq<Job>, moved: bool) {
    && before <= polled
    && forall k: nat, j, g: nat {:trigger HasTurn(was, marks, ts[k], j, g)} ::
         k < |ts| && HasTurn(was, marks, ts[k], j, g) ==>
           Comes(ts, start, before, now, marks', last, polled, moved, k, j, g)
  }

  lemma NoTurnsYet(ts: seq<Target>, was: Lists, marks: map<Target, int>, start: int, before: seq<Job>)
    requires -1 <= start < |ts|
    ensures TurnsCome(ts, was, marks, start, before, was, marks, start, before, false)
  {
  }

  /** The turn of the next target. */
  lemma TurnsComeOn(
    ts: seq<Target>, was: Lists, marks: map<Target, int>, start: int, before: seq<Job>,
    mid: Lists, marks1: map<Target, int>, last: int, polled: seq<Job>, moved: bool,
    now: Lists, marks2: map<Target, int>, p: nat, more: seq<Job>)
    requires ts != [] && Distinct(ts) && -1 <= start < |ts| && -1 <= last < |ts|
    requires TurnsCome(ts, was, marks, start, before, mid, marks1, last, polled, moved) && polled <= more
    requires var t := ts[NextIndex(|ts|, last)];
             && t in mid && t in now && now == mid[t := now[t]]
             && t in marks1 && t in marks2 && marks2 == marks1[t := marks2[t]]
             && Turns(mid[t], marks1[t], now[t], marks2[t], p, polled, more) && (mid[t] != [] ==> p > 0)
    ensures TurnsCome(ts, was, marks, start, before, now, marks2, NextIndex(|ts|, last), more, true)
  {
    hide NextIndex, InTurn, StepsTo, Asked;
    var i := NextIndex(|ts|, last);
    PrefixOn(before, polled, more);
    forall k: nat, j, g: nat | k < |ts| && HasTurn(was, marks, ts[k], j, g)
      ensures Comes(ts, start, before, now, marks2, i, more, true, k, j, g)
    {
      assert Comes(ts, start, before, mid, marks1, last, polled, moved, k, j, g);
      if Asked(j, before, polled) {
        AskedStill(j, before, polled, more);
      } else if k == i {
        var h := if g > 0 && HasTurn(mid, marks1, ts[k], j, g - 1) then g - 1 else g;
        OwnTurn(mid[ts[i]], marks1[ts[i]], now[ts[i]], marks2[ts[i]], p, before, polled, more, j, g, h);
      } else {
        StepsFall(|ts|, last, k);
        assert ts[k] != ts[i];
      }
    }
  }

  lemma PrefixOn(a: seq<Job>, b: seq<Job>, c: seq<Job>)
    requires a <= b && b <= c
    ensures a <= c
  {
    assert a == b[..|a|] == c[..|a|];
  }

  lemma OwnTurn(list: seq<Job>, mark: int, list': seq<Job>, mark': int, p: nat, before: seq<Job>, polled: seq<Job>,
                more: seq<Job>, j: Job, g: nat, h: nat)
    requires Turns(list, mark, list', mark', p, polled, more) && (list != [] ==> p > 0) && before <= polled
    requires InTurn(list, mark, j, h) && (h == g || h == g - 1)
    ensures Asked(j, before, more) || (g > 0 && InTurn(list', mark', j, g - 1))
  {
    assert list != [];
    if Asked(j, polled, more) {
      AskedSince(j, before, polled, more);
    } else {
      InTurnMore(list', mark', j, h - p, g - 1);
    }
  }

  // ---- when a job is due ----

  ghost function Unlaunched(items: seq<Job>, s: Statuses, t: Target): set<Job> {
    set j | j in items && j.target == t && (j !in s || s[j] == Q)
  }

  /** What g jobs before it on its list, u jobs that may still join it, and d steps of the cursor cost a job. */
  function Cost(g: nat, u: nat, n: nat, d: nat): nat {
    (g + u) * n + d
  }

  lemma CostFalls(g: nat, u: nat, n: nat, d: nat, e: nat)
    requires 1 <= d <= n && 1 <= e <= n
    ensures e < d ==> Cost(g, u, n, e) < Cost(g, u, n, d)
    ensures g > 0 ==> Cost(g - 1, u, n, e) < Cost(g, u, n, d)
  {
    if g > 0 { assert (g - 1 + u) * n + n == (g + u) * n; }
  }

  lemma CostWithin(a: nat, u: nat, b: nat, v: nat, n: nat, d: nat)
    requires a + u <= b + v
    ensures Cost(a, u, n, d) <= Cost(b, v, n, d)
  {
    MulMonotone(n, a + u, b + v);
  }

  /** Within r more turns of the main loop j is polled: the jobs before it on its list, and those that may still join
      it, each cost at most a round of the targets. */
  ghost predicate Due(items: seq<Job>, s: Statuses, ts: seq<Target>, lists: Lists, marks: map<Target, int>, last: int,
                      j: Job, r: nat) {
    exists k: nat, g: nat :: k < |ts| && -1 <= last < |ts| && HasTurn(lists, marks, ts[k], j, g)
      && Cost(g, |Unlaunched(items, s, ts[k])|, |ts|, StepsTo(|ts|, last, k)) <= r
  }

  lemma PollDue(items: seq<Job>, s: Statuses, ts: seq<Target>, was: Lists, marks: map<Target, int>, start: int,
                before: seq<Job>, t: Statuses, now: Lists, marks': map<Target, int>, last: int, polled: seq<Job>,
                j: Job, r: nat)
    requires TurnsCome(ts, was, marks, start, before, now, marks', last, polled, true) && -1 <= last < |ts|
    requires forall u :: Unlaunched(items, t, u) == Unlaunched(items, s, u)
    requires Due(items, s, ts, was, marks, start, j, r)
    ensures Asked(j, before, polled) || (r > 0 && Due(items, t, ts, now, marks', last, j, r - 1))
  {
    hide HasTurn, StepsTo, Asked, Unlaunched, Cost;
    var k: nat, g: nat :| k < |ts| && HasTurn(was, marks, ts[k], j, g)
      && Cost(g, |Unlaunched(items, s, ts[k])|, |ts|, StepsTo(|ts|, start, k)) <= r;
    CostFalls(g, |Unlaunched(items, s, ts[k])|, |ts|, StepsTo(|ts|, start, k), StepsTo(|ts|, last, k));
  }

  lemma DispatchDue(items: seq<Job>, s: Statuses, ts: seq<Target>, was: Lists, marks: map<Target, int>, last: int,
                    t: Statuses, now: Lists, j: Job, r: nat)
    requires forall u :: u in was ==>
               && u in now && was[u] <= now[u]
               && |now[u]| - |was[u]| + |Unlaunched(items, t, u)| <= |Unlaunched(items, s, u)|
    requires Due(items, s, ts, was, marks, last, j, r)
    ensures Due(items, t, ts, now, marks, last, j, r)
  {
    hide InTurn, StepsTo, Unlaunched, Cost;
    var k: nat, g: nat :| k < |ts| && HasTurn(was, marks, ts[k], j, g)
      && Cost(g, |Unlaunched(items, s, ts[k])|, |ts|, StepsTo(|ts|, last, k)) <= r;
    var h: nat := g + |now[ts[k]]| - |was[ts[k]]|;
    AddedMoves(was[ts[k]], marks[ts[k]], j, g, now[ts[k]]);
    CostWithin(h, |Unlaunched(items, t, ts[k])|, g, |Unlaunched(items, s, ts[k])|, |ts|, StepsTo(|ts|, last, k));
    assert HasTurn(now, marks, ts[k], j, h);
  }

  /** Only jobs that were waiting or queued have joined a running list. */
  lemma JoinedFromUnlaunched(items: seq<Job>, s: Statuses, was: seq<Job>, t: Statuses, now: seq<Job>, u: Target)
    requires Holds(was, At(items, s, u, D)) && Holds(now, At(items, t, u, D)) && was <= now
    requires forall j :: Stage(t, j) <= Stage(s, j)
    ensures |now| - |was| + |Unlaunched(items, t, u)| <= |Unlaunched(items, s, u)|
  {
    NewlyRunning(items, s, t, u);
    hide At, Unlaunched, Stage;
    HoldsCount(was, At(items, s, u, D));
    HoldsCount(now, At(items, t, u, D));
    ListGrows(was, At(items, s, u, D), now, At(items, t, u, D));
    CountJoined(At(items, s, u, D), At(items, t, u, D), Unlaunched(items, s, u), Unlaunched(items, t, u));
  }

  lemma ListGrows(was: seq<Job>, before: set<Job>, now: seq<Job>, after: set<Job>)
    requires Holds(was, before) && Holds(now, after) && was <= now
    ensures before <= after
  {
    assert forall j :: j in was ==> j in now;
  }

  lemma CountJoined(before: set<Job>, after: set<Job>, from: set<Job>, left: set<Job>)
    requires before <= after && (after - before) + left <= from && (after - before) !! left
    ensures |after| - |before| + |left| <= |from|
  {
    assert after == (after - before) + before;
    SubsetCount((after - before) + left, from);
  }

  lemma NewlyRunning(items: seq<Job>, s: Statuses, t: Statuses, u: Target)
    requires forall j :: Stage(t, j) <= Stage(s, j)
    ensures var joined := At(items, t, u, D) - At(items, s, u, D);
            && joined + Unlaunched(items, t, u) <= Unlaunched(items, s, u)
            && joined !! Unlaunched(items, t, u)
  {
    forall j | j in At(items, t, u, D) && j !in At(items, s, u, D) ensures j in Unlaunched(items, s, u) {
      assert Stage(t, j) == 1;
    }
    forall j | j in Unlaunched(items, t, u) ensures j in Unlaunched(items, s, u) { assert Stage(t, j) >= 2; }
  }

  lemma SubsetCount(a: set<Job>, b: set<Job>)
    requires a <= b
    ensures |a| <= |b|
  {
    assert b == a + (b - a);
  }

  /** As many turns as the target has jobs, times the number of targets. */
  ghost function WaitLimit(items: seq<Job>, ts: seq<Target>, t: Target): nat {
    |OfTarget(items, t)| * |ts|
  }

  /** No running job waits longer. */
  lemma DueInTime(items: seq<Job>, s: Statuses, ts: seq<Target>, lists: Lists, marks: map<Target, int>, last: int,
                  k: nat, j: Job)
    requires k < |ts| && -1 <= last < |ts| && ts[k] in lists && ts[k] in marks && marks[ts[k]] >= -1
    requires Holds(lists[ts[k]], At(items, s, ts[k], D)) && j in lists[ts[k]]
    ensures Due(items, s, ts, lists, marks, last, j, WaitLimit(items, ts, ts[k]))
  {
    hide HasTurn, StepsTo, Cost, Holds, At;
    var t, n := ts[k], |lists[ts[k]]|;
    InTurnAtMost(lists[t], marks[t], j);
    IsTurn(lists, marks, t, j, n - 1);
    HoldsCount(lists[t], At(items, s, t, D));
    StartedOrNot(items, s, t);
    CostBound(n, |Unlaunched(items, s, t)|, |OfTarget(items, t)|, |ts|, StepsTo(|ts|, last, k));
  }

  lemma OnItsList(items: seq<Job>, s: Statuses, box: Lists, j: Job)
    requires ListBox(items, s, box, D, {}) && j in items && j in s && s[j] == D && j.target in box
    ensures j in box[j.target] && Holds(box[j.target], At(items, s, j.target, D))
  {
    hide TargetsOf;
    assert j in At(items, s, j.target, D);
    assert At(items, s, j.target, D) - {} == At(items, s, j.target, D);
  }

  lemma StartedOrNot(items: seq<Job>, s: Statuses, t: Target)
    ensures |At(items, s, t, D)| + |Unlaunched(items, s, t)| <= |OfTarget(items, t)|
  {
    assert At(items, s, t, D) !! Unlaunched(items, s, t);
    SubsetCount(At(items, s, t, D) + Unlaunched(items, s, t), OfTarget(items, t));
  }

  lemma CostBound(g: nat, u: nat, m: nat, n: nat, d: nat)
    requires g > 0 && g + u <= m && d <= n
    ensures Cost(g - 1, u, n, d) <= m * n
  {
    MulMonotone(n, g + u, m);
    assert (g - 1 + u) * n + n == (g + u) * n;
  }

  lemma IsTurn(lists: Lists, marks: map<Target, int>, t: Target, j: Job, g: nat)
    requires t in lists && t in marks && InTurn(lists[t], marks[t], j, g)
    ensures HasTurn(lists, marks, t, j, g)
  {
  }

  lemma DueMeansRunning(items: seq<Job>, s: Statuses, ts: seq<Target>, lists: Lists, marks: map<Target, int>,
                        last: int, j: Job, r: nat)
    requires Due(items, s, ts, lists, marks, last, j, r)
    ensures TotalLen(lists) > 0
  {
    hide Unlaunched, StepsTo, Cost, TotalLen;
    TotalLenZero(lists);
  }

  lemma PollsLaunchNothing(items: seq<Job>, s: Statuses, t: Statuses, verdict: Job -> Status)
    requires Polls(s, t, verdict) && forall j :: Final(verdict(j))
    ensures forall u :: Unlaunched(items, t, u) == Unlaunched(items, s, u)
  {
    forall j ensures (j !in t || t[j] == Q) <==> (j !in s || s[j] == Q) {}
  }
}
