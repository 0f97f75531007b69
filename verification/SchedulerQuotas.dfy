/** How a dispatch pass splits the free slots over the targets by weight. */
module SchedulerQuotas {

  /** r is a / b to the nearest integer, ties to the even one. */
  predicate Nearest(a: nat, b: nat, r: int) {
    && 0 <= 2 * (a - b * r) + b <= 2 * b
    && (2 * (a - b * r) == b || 2 * (a - b * r) + b == 0 ==> r % 2 == 0)
  }

  function Round(a: nat, b: nat): (r: nat)
    requires b > 0
    ensures Nearest(a, b, r)
  {
    var q, rest := a / b, a % b;
    DivisionNearest(a, b, q, rest);
    if 2 * rest < b || (2 * rest == b && q % 2 == 0) then q else q + 1
  }

  lemma DivisionNearest(a: nat, b: nat, q: nat, rest: nat)
    requires a == b * q + rest && rest < b
    ensures Nearest(a, b, if 2 * rest < b || (2 * rest == b && q % 2 == 0) then q else q + 1)
  {
    MulSplit(b, q, 1);
  }

  lemma MulMonotone(c: nat, x: int, y: int)
    requires x <= y
    ensures c * x <= c * y
  {
  }

  lemma Apart(b: nat, p: int, q: int)
    ensures p >= q + 1 ==> b * p >= b * q + b
    ensures p >= q + 2 ==> b * p >= b * q + 2 * b
  {
    var n := p - q;
    assert b * p == b * q + b * n;
    if n >= 1 { MulMonotone(b, 1, n); }
    if n >= 2 { MulMonotone(b, 2, n); }
  }

  lemma NearestMonotone(a: nat, c: nat, b: nat, p: int, q: int)
    requires b > 0 && a <= c && Nearest(a, b, p) && Nearest(c, b, q)
    ensures p <= q
  {
    Apart(b, p, q);
  }

  lemma RoundUnique(a: nat, b: nat, r: int)
    requires b > 0 && Nearest(a, b, r)
    ensures Round(a, b) == r
  {
    NearestMonotone(a, a, b, r, Round(a, b));
    NearestMonotone(a, a, b, Round(a, b), r);
  }

  lemma RoundMonotone(a: nat, c: nat, b: nat)
    requires b > 0 && a <= c
    ensures Round(a, b) <= Round(c, b)
  {
    NearestMonotone(a, c, b, Round(a, b), Round(c, b));
  }

  lemma RoundExact(s: nat, b: nat)
    requires b > 0
    ensures Round(s * b, b) == s
  {
    RoundUnique(s * b, b, s);
  }

  function Sum(ws: seq<nat>): nat {
    if ws == [] then 0 else Sum(ws[..|ws| - 1]) + ws[|ws| - 1]
  }

  /** The quota of the next target: what rounding leaves after the quotas before. */
  function Grant(slots: nat, total: nat, ws: seq<nat>, w: nat): nat
    requires total > 0
  {
    var q := Round(slots * (Sum(ws) + w), total) - Sum(Quotas(slots, total, ws));
    if q <= 0 then 0 else q
  }

  /** The quota of each target in turn, from the weights at the heads of the queues met in the pass. A quota that
      would not be positive gives nothing. */
  function Quotas(slots: nat, total: nat, ws: seq<nat>): (qs: seq<nat>)
    requires total > 0
    ensures |qs| == |ws|
  {
    if ws == [] then []
    else
      var before := Quotas(slots, total, ws[..|ws| - 1]);
      var q := Round(slots * Sum(ws), total) - Sum(before);
      before + [if q <= 0 then 0 else q]
  }

  lemma QuotasMore(slots: nat, total: nat, ws: seq<nat>, w: nat)
    requires total > 0
    ensures Sum(ws + [w]) == Sum(ws) + w
    ensures Sum(Quotas(slots, total, ws + [w])) == Sum(Quotas(slots, total, ws)) + Grant(slots, total, ws, w)
  {
    hide Round;
    var more := ws + [w];
    assert more[..|more| - 1] == ws;
    var before := Quotas(slots, total, ws);
    var q := Round(slots * (Sum(ws) + w), total) - Sum(before);
    var qs := before + [if q <= 0 then 0 else q];
    assert Quotas(slots, total, more) == qs;
    assert qs[..|qs| - 1] == before;
  }

  lemma GrantIs(slots: nat, total: nat, ws: seq<nat>, w: nat, sum: nat, filled: nat)
    requires total > 0 && sum == Sum(ws) + w && filled == Sum(Quotas(slots, total, ws))
    ensures var q := Round(slots * sum, total) - filled; Grant(slots, total, ws, w) == if q <= 0 then 0 else q
  {
  }

  /** The quotas telescope: no rounding error adds up, and no quota has to be cut off at zero. */
  lemma {:induction false} QuotasTelescope(slots: nat, total: nat, ws: seq<nat>)
    requires total > 0
    ensures Sum(Quotas(slots, total, ws)) == Round(slots * Sum(ws), total)
  {
    if ws == [] {
      RoundUnique(slots * 0, total, 0);
    } else {
      hide Nearest;
      var front := ws[..|ws| - 1];
      QuotasTelescope(slots, total, front);
      RoundMonotone(slots * Sum(front), slots * Sum(ws), total) by { MulMonotone(slots, Sum(front), Sum(ws)); }
      var qs := Quotas(slots, total, ws);
      assert qs[..|qs| - 1] == Quotas(slots, total, front);
    }
  }

  /** When exactly the weights counted up front are met, exactly the free slots are given out. When queues that
      were empty up front are met as well, the pass gives out exactly the free slots if and only if their weight is
      too small to round up. */
  lemma QuotasFillSlots(slots: nat, total: nat, late: nat, ws: seq<nat>)
    requires total > 0 && Sum(ws) == total + late
    ensures Sum(Quotas(slots, total, ws)) >= slots
    ensures Sum(Quotas(slots, total, ws)) == slots <==>
              2 * (slots * late) < total || (2 * (slots * late) == total && slots % 2 == 0)
  {
    hide *;
    QuotasTelescope(slots, total, ws);
    RoundAbove(slots, total, slots * late, slots * Sum(ws)) by { MulSplit(slots, total, late); }
  }

  lemma MulSplit(c: nat, x: nat, y: nat)
    ensures c * (x + y) == c * x + c * y
  {
  }

  lemma RoundAbove(slots: nat, total: nat, more: nat, a: nat)
    requires total > 0 && a == slots * total + more
    ensures Round(a, total) >= slots
    ensures Round(a, total) == slots <==> 2 * more < total || (2 * more == total && slots % 2 == 0)
  {
    var r := Round(a, total);
    assert a - total * slots == more;
    RoundExact(slots, total);
    RoundMonotone(slots * total, a, total);
    if 2 * more < total || (2 * more == total && slots % 2 == 0) { RoundUnique(a, total, slots); }
  }

  /** One free slot, one queued job of weight 1; cancelling it fills a queue with a job of weight 10. The pass then
      hands out 11 slots. */
  lemma QuotasOvershoot()
    ensures Sum(Quotas(1, 1, [1, 10])) == 11
  {
    QuotasTelescope(1, 1, [1, 10]);
    assert [1, 10][..1] == [1] && [1][..0] == [];
    assert Sum([1]) == 1 && Sum([1, 10]) == 11;
    RoundExact(11, 1);
  }
}
