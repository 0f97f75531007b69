/** Circular polling, and the measure that makes a run end. */
module SchedulerPolling {
  import opened Wrappers
  import opened SchedulerProtocol
  import opened SchedulerBoxes
  import opened SchedulerPlaces

  function NextIndex(n: nat, last: int): (k: nat)
    requires n > 0 && last >= -1
    ensures k < n
  {
    if last + 1 < n then last + 1 else 0
  }

  /** The next item of a circular list; an index that has become too large starts over. */
  method GetNextItem<T>(arr: seq<T>, index: int) returns (r: Option<(T, nat)>)
    requires index >= -1
    ensures r == if arr == [] then None else Some((arr[NextIndex(|arr|, index)], NextIndex(|arr|, index)))
  {
    var next := index + 1;
    if next >= |arr| {
      next := 0;
      if next >= |arr| { return None; }
    }
    return Some((arr[next], next));
  }

  /** The index reached after k steps. */
  function Visit(n: nat, last: int, k: nat): (i: int)
    requires n > 0 && last >= -1
    ensures i >= -1 && (k > 0 ==> 0 <= i < n)
  {
    if k == 0 then last else NextIndex(n, Visit(n, last, k - 1))
  }

  function VisitList<T>(l: seq<T>, last: int, k: nat): (v: seq<T>)
    requires last >= -1 && (k > 0 ==> l != [])
    ensures |v| == k
  {
    if k == 0 then [] else VisitList(l, last, k - 1) + [l[Visit(|l|, last, k)]]
  }

  /** k polls went round the list: these jobs were polled, and the index moved from last to now. */
  ghost predicate WentRound(l: seq<Job>, k: nat, last: int, now: int, before: seq<Job>, after: seq<Job>) {
    && last >= -1 && (k > 0 ==> l != [])
    && after == before + VisitList(l, last, k)
    && now == if l == [] then last else Visit(|l|, last, k)
  }

  lemma WentNowhere(l: seq<Job>, last: int, polled: seq<Job>)
    requires last >= -1
    ensures WentRound(l, 0, last, last, polled, polled)
  {
    assert polled + [] == polled;
  }

  lemma {:induction false} VisitOffset(n: nat, last: int, k: nat)
    requires n > 0 && last >= -1 && 1 <= k <= n
    ensures var i := NextIndex(n, last) + k - 1; Visit(n, last, k) == if i < n then i else i - n
  {
    if k > 1 { VisitOffset(n, last, k - 1); }
  }

  /** As many steps as there are items visit every item exactly once, wherever the index stood. */
  lemma RoundVisitsEachOnce(n: nat, last: int, i: nat)
    requires n > 0 && last >= -1 && i < n
    ensures exists k :: 1 <= k <= n && Visit(n, last, k) == i
    ensures forall k, l :: 1 <= k < l <= n ==> Visit(n, last, k) != Visit(n, last, l)
  {
    var first := NextIndex(n, last);
    var k := if i >= first then i - first + 1 else i - first + 1 + n;
    VisitOffset(n, last, k);
    assert Visit(n, last, k) == i;
    forall k, l | 1 <= k < l <= n ensures Visit(n, last, k) != Visit(n, last, l) {
      VisitOffset(n, last, k);
      VisitOffset(n, last, l);
    }
  }

  lemma {:induction false} VisitListAt<T>(l: seq<T>, last: int, k: nat, i: nat)
    requires last >= -1 && l != [] && i < k
    ensures VisitList(l, last, k)[i] == l[Visit(|l|, last, i + 1)]
  {
    if i < k - 1 { VisitListAt(l, last, k - 1, i); }
  }

  /** A full round over a list of distinct jobs visits each of them, and none twice. */
  lemma FullRound(l: seq<Job>, last: int, js: set<Job>)
    requires last >= -1 && l != [] && Holds(l, js)
    ensures Holds(VisitList(l, last, |l|), js)
  {
    var n, v := |l|, VisitList(l, last, |l|);
    forall i | 0 <= i < n ensures v[i] == l[Visit(n, last, i + 1)] { VisitListAt(l, last, n, i); }
    RoundVisitsEachOnce(n, last, 0);
    forall i, j | 0 <= i < j < n ensures v[i] != v[j] {
      assert Visit(n, last, i + 1) != Visit(n, last, j + 1);
    }
    forall j | j in js ensures j in v {
      var i :| 0 <= i < n && l[i] == j;
      RoundVisitsEachOnce(n, last, i);
      var k :| 1 <= k <= n && Visit(n, last, k) == i;
      assert v[k - 1] == j;
    }
  }

  // ---- the answers ----

  /** How often a job still answers D. */
  function StillD(pending: map<Job, nat>, j: Job): nat {
    if j in pending then pending[j] else 0
  }

  /** Since some earlier moment, a running job was completed exactly if it was polled more often than it then still
      answered D. */
  ghost predicate Answered(s: Statuses, was: map<Job, nat>, before: seq<Job>,
                           t: Statuses, now: map<Job, nat>, polled: seq<Job>) {
    && before <= polled
    && forall j :: Answers(s, was, t, now, multiset(polled[|before|..])[j], j)
  }

  ghost predicate Answers(s: Statuses, was: map<Job, nat>, t: Statuses, now: map<Job, nat>, times: nat, j: Job) {
    && StillD(now, j) == (if times <= StillD(was, j) then StillD(was, j) - times else 0)
    && (j in s && s[j] == D ==> j in t && (t[j] == D <==> times <= StillD(was, j)))
  }

  lemma AnsweredNone(s: Statuses, was: map<Job, nat>, polled: seq<Job>)
    ensures Answered(s, was, polled, s, was, polled)
  {
  }

  lemma AnsweredOne(s: Statuses, was: map<Job, nat>, polled: seq<Job>, x: Job, t: Statuses, now: map<Job, nat>)
    requires forall j :: StillD(now, j) == if j == x && StillD(was, j) > 0 then StillD(was, j) - 1 else StillD(was, j)
    requires x in s && s[x] == D && x in t && (t[x] == D <==> StillD(was, x) > 0)
    requires forall j :: j in s && j != x ==> j in t && t[j] == s[j]
    ensures Answered(s, was, polled, t, now, polled + [x])
  {
    assert (polled + [x])[|polled|..] == [x];
  }

  lemma AnsweredOn(s: Statuses, was: map<Job, nat>, before: seq<Job>,
                   t: Statuses, mid: map<Job, nat>, logged: seq<Job>,
                   u: Statuses, now: map<Job, nat>, polled: seq<Job>)
    requires Answered(s, was, before, t, mid, logged) && Answered(t, mid, logged, u, now, polled)
    requires forall j :: j in t && t[j] != D ==> j in u && u[j] != D
    ensures Answered(s, was, before, u, now, polled)
  {
    var a, b := logged[|before|..], polled[|logged|..];
    assert polled[|before|..] == a + b;
    forall j ensures Answers(s, was, u, now, multiset(a + b)[j], j) {
      assert Answers(s, was, t, mid, multiset(a)[j], j);
      assert Answers(t, mid, u, now, multiset(b)[j], j);
    }
  }

  // ---- the measure ----

  /** How many D answers are still to come. */
  function Pending(items: seq<Job>, pending: map<Job, nat>): nat {
    if items == [] then 0
    else
      var j := items[|items| - 1];
      Pending(items[..|items| - 1], pending) + StillD(pending, j)
  }

  lemma {:induction false} PendingFalls(items: seq<Job>, pending: map<Job, nat>, j: Job)
    requires j in pending && pending[j] > 0
    ensures Pending(items, pending[j := pending[j] - 1]) <= Pending(items, pending)
    ensures j in items ==> Pending(items, pending[j := pending[j] - 1]) < Pending(items, pending)
  {
    if items != [] {
      var n := |items| - 1;
      PendingFalls(items[..n], pending, j);
      assert j in items ==> j in items[..n] || j == items[n];
    }
  }

  /** Every event uses up work. */
  lemma WorkUsed(items: seq<Job>, before: seq<Event>, s: Statuses, ds: seq<Job>,
                 after: seq<Event>, t: Statuses, es: seq<Job>)
    requires Recorded(items, before, s, ds) && Recorded(items, after, t, es) && before <= after
    ensures Work(items, t) + |after| - |before| <= Work(items, s)
  {
    HistoryUsesWork(items, after, |before|);
    assert after[..|before|] == before;
  }

  lemma SomeListNonempty(keys: seq<Target>, box: Lists)
    requires TotalLen(box) > 0 && forall t :: t in box <==> t in keys
    ensures exists i :: 0 <= i < |keys| && keys[i] in box && box[keys[i]] != []
  {
    TotalLenZero(box);
    var t :| t in box && box[t] != [];
    var i :| 0 <= i < |keys| && keys[i] == t;
  }

  // ---- round the targets ----

  /** From the target after start up to the last one polled, possibly past the end of the list, nothing is running. */
  ghost predicate Passed(ts: seq<Target>, box: Lists, start: int, last: int, wrapped: bool) {
    && -1 <= start < |ts| && -1 <= last < |ts|
    && (if wrapped then 0 <= last <= start else start <= last)
    && forall k :: 0 <= k < |ts| && (if wrapped then k <= last || start < k else start < k <= last) ==>
         ts[k] in box && box[ts[k]] == []
  }

  /** While something is running the round is not complete. */
  lemma RoundNotOver(ts: seq<Target>, box: Lists, start: int, last: int, wrapped: bool)
    requires Passed(ts, box, start, last, wrapped)
    requires TotalLen(box) > 0 && forall t :: t in box <==> t in ts
    ensures ts != [] && (if wrapped then 0 <= last < start else start <= last && (last == |ts| - 1 ==> start >= 0))
  {
    SomeListNonempty(ts, box);
  }

  /** The k-th poll of a list. */
  lemma OnePolled(l: seq<Job>, k: nat, last: int, mark: int, before: seq<Job>, polled: seq<Job>, more: seq<Job>)
    requires k > 0 && l != [] && WentRound(l, k - 1, last, mark, before, polled)
    requires mark >= -1 && more == polled + [l[NextIndex(|l|, mark)]]
    ensures WentRound(l, k, last, NextIndex(|l|, mark), before, more)
  {
    assert before + VisitList(l, last, k - 1) + [l[NextIndex(|l|, mark)]]
        == before + (VisitList(l, last, k - 1) + [l[NextIndex(|l|, mark)]]);
  }

  lemma PassOneMore(ts: seq<Target>, box: Lists, start: int, last: int, wrapped: bool, list: seq<Job>)
    requires Distinct(ts) && Passed(ts, box, start, last, wrapped)
    requires ts != [] && (if wrapped then last < start else last == |ts| - 1 ==> start >= 0)
    requires list == []
    ensures var i := NextIndex(|ts|, last);
            Passed(ts, box[ts[i] := list], start, i, wrapped || i != last + 1)
  {
  }
}
