/** Binomial coefficients, `itertools.combinations` over range(m), and the fan-in of their rows. */
module Combinations {
  import opened Wrappers
  import opened Bits
  import opened SecdedCode

  function Binom(n: nat, s: nat): nat {
    if s == 0 then 1 else if n == 0 then 0 else Binom(n - 1, s - 1) + Binom(n - 1, s)
  }

  function Prepend(x: nat, cs: seq<Tuple>): (r: seq<Tuple>)
    ensures |r| == |cs|
  {
    seq(|cs|, i requires 0 <= i < |cs| => [x] + cs[i])
  }

  /** All increasing tuples of s numbers from lo..m, in lexicographic order. */
  function Comb(lo: nat, m: nat, s: nat): seq<Tuple>
    requires lo <= m
    decreases m - lo
  {
    if s == 0 then [[]]
    else if lo == m then []
    else Prepend(lo, Comb(lo + 1, m, s - 1)) + Comb(lo + 1, m, s)
  }

  predicate TupleFrom(c: Tuple, lo: nat, m: nat) {
    Increasing(c) && forall p :: p in c ==> lo <= p < m
  }

  /** Number of tuples among the first n that contain row j. */
  function FanInOf(codes: seq<Tuple>, n: nat, j: nat): nat
    requires n <= |codes|
  {
    if n == 0 then 0 else FanInOf(codes, n - 1, j) + (if j in codes[n - 1] then 1 else 0)
  }

  /** Number of tuples that contain row j. */
  function FanIn(codes: seq<Tuple>, j: nat): nat {
    FanInOf(codes, |codes|, j)
  }

  /** `calc_fanin` */
  method CalcFanIn(m: nat, codes: seq<Tuple>) returns (fanins: seq<nat>)
    requires ValidCodes(codes, m)
    ensures |fanins| == m && forall j :: 0 <= j < m ==> fanins[j] == FanIn(codes, j)
  {
    fanins := seq(m, _ => 0);
    for i := 0 to |codes|
      invariant |fanins| == m && forall j :: 0 <= j < m ==> fanins[j] == FanInOf(codes, i, j)
    {
      var c := codes[i];
      for q := 0 to |c|
        invariant |fanins| == m
        invariant forall j :: 0 <= j < m ==> fanins[j] == FanInOf(codes, i, j) + (if j in c[..q] then 1 else 0)
      {
        assert ValidTuple(c, m) && c[q] in c;
        fanins := fanins[c[q] := fanins[c[q]] + 1];
        assert c[..q + 1] == c[..q] + [c[q]];
      }
      assert c[..|c|] == c;
    }
  }

  // ---- what combinations returns ----

  lemma {:induction false} CombCount(lo: nat, m: nat, s: nat)
    requires lo <= m
    ensures |Comb(lo, m, s)| == Binom(m - lo, s)
    decreases m - lo
  {
    if s > 0 && lo < m {
      CombCount(lo + 1, m, s - 1);
      CombCount(lo + 1, m, s);
    }
  }

  lemma {:induction false} CombElements(lo: nat, m: nat, s: nat, i: nat)
    requires lo <= m && i < |Comb(lo, m, s)|
    ensures var c := Comb(lo, m, s)[i]; |c| == s && TupleFrom(c, lo, m)
    decreases m - lo
  {
    if s > 0 && lo < m {
      var n := |Comb(lo + 1, m, s - 1)|;
      if i < n {
        CombElements(lo + 1, m, s - 1, i);
        var t := Comb(lo + 1, m, s - 1)[i];
        assert Comb(lo, m, s)[i] == [lo] + t;
        assert forall a :: 0 <= a < |t| ==> t[a] in t;
      } else {
        CombElements(lo + 1, m, s, i - n);
        assert Comb(lo, m, s)[i] == Comb(lo + 1, m, s)[i - n];
      }
    }
  }

  lemma {:induction false} CombDistinct(lo: nat, m: nat, s: nat)
    requires lo <= m
    ensures Distinct(Comb(lo, m, s))
    decreases m - lo
  {
    if s > 0 && lo < m {
      CombDistinct(lo + 1, m, s - 1);
      CombDistinct(lo + 1, m, s);
      var a, b := Comb(lo + 1, m, s - 1), Comb(lo + 1, m, s);
      var all := Prepend(lo, a) + b;
      forall i, j | 0 <= i < j < |all| ensures all[i] != all[j] {
        if j < |a| {
          assert all[i][1..] == a[i] && all[j][1..] == a[j];
        } else if i < |a| {
          CombElements(lo + 1, m, s, j - |a|);
          assert all[j] == b[j - |a|];
          assert all[i][0] == lo && all[j][0] in all[j];
        } else {
          assert all[i] == b[i - |a|] && all[j] == b[j - |a|];
        }
      }
    }
  }

  /** a comes before b in lexicographic order. */
  ghost predicate Before(a: Tuple, b: Tuple) {
    exists p :: 0 <= p < |a| && p < |b| && a[..p] == b[..p] && a[p] < b[p]
  }

  lemma BeforePrepended(x: nat, a: Tuple, b: Tuple)
    requires Before(a, b)
    ensures Before([x] + a, [x] + b)
  {
    var p :| 0 <= p < |a| && p < |b| && a[..p] == b[..p] && a[p] < b[p];
    assert ([x] + a)[..p + 1] == [x] + a[..p] && ([x] + b)[..p + 1] == [x] + b[..p];
    assert ([x] + a)[p + 1] == a[p] && ([x] + b)[p + 1] == b[p];
  }

  /** The combinations come in lexicographic order. */
  lemma {:induction false} CombOrdered(lo: nat, m: nat, s: nat, i: nat, j: nat)
    requires lo <= m && i < j < |Comb(lo, m, s)|
    ensures Before(Comb(lo, m, s)[i], Comb(lo, m, s)[j])
    decreases m - lo
  {
    hide Comb, Before, Prepend;
    CombSplits(lo, m, s);
    if s > 0 && lo < m {
      var a, b := Comb(lo + 1, m, s - 1), Comb(lo + 1, m, s);
      if i < |a| { PrependAt(lo, a, i); }
      if j < |a| {
        PrependAt(lo, a, j);
        CombOrdered(lo + 1, m, s - 1, i, j);
        BeforePrepended(lo, a[i], a[j]);
      } else if i >= |a| {
        CombOrdered(lo + 1, m, s, i - |a|, j - |a|);
      } else {
        CombElements(lo + 1, m, s, j - |a|);
        FirstLess(lo, a[i], b[j - |a|], m);
      }
    }
  }

  lemma PrependAt(x: nat, cs: seq<Tuple>, i: nat)
    requires i < |cs|
    ensures Prepend(x, cs)[i] == [x] + cs[i]
  {
  }

  lemma FirstLess(lo: nat, a: Tuple, b: Tuple, m: nat)
    requires b != [] && TupleFrom(b, lo + 1, m)
    ensures Before([lo] + a, b)
  {
    FirstMember(b);
    assert ([lo] + a)[..0] == b[..0];
  }

  lemma {:induction false} CombComplete(lo: nat, m: nat, c: Tuple)
    requires lo <= m && TupleFrom(c, lo, m)
    ensures c in Comb(lo, m, |c|)
    decreases m - lo
  {
    hide TupleFrom, Prepend, Comb;
    CombSplits(lo, m, |c|);
    if c != [] {
      LaterTuples(c, lo, m);
      var a, b := Comb(lo + 1, m, |c| - 1), Comb(lo + 1, m, |c|);
      if c[0] == lo {
        CombComplete(lo + 1, m, c[1..]);
        PrependMember(lo, a, c[1..]);
        assert [lo] + c[1..] == c;
      } else {
        CombComplete(lo + 1, m, c);
      }
      assert c in Prepend(lo, a) + b;
    } else {
      assert c in [[]];
    }
  }

  lemma CombSplits(lo: nat, m: nat, s: nat)
    requires lo <= m
    ensures s == 0 ==> Comb(lo, m, s) == [[]]
    ensures s > 0 && lo == m ==> Comb(lo, m, s) == []
    ensures s > 0 && lo < m ==> Comb(lo, m, s) == Prepend(lo, Comb(lo + 1, m, s - 1)) + Comb(lo + 1, m, s)
  {
  }

  lemma PrependMember(x: nat, cs: seq<Tuple>, t: Tuple)
    requires t in cs
    ensures [x] + t in Prepend(x, cs)
  {
    var i :| 0 <= i < |cs| && cs[i] == t;
    assert Prepend(x, cs)[i] == [x] + t;
  }

  /** Without its first number, or with a later first number, a tuple starts later. */
  lemma LaterTuples(c: Tuple, lo: nat, m: nat)
    requires TupleFrom(c, lo, m) && c != []
    ensures lo < m
    ensures TupleFrom(if c[0] == lo then c[1..] else c, lo + 1, m)
  {
    assert c[0] in c;
    forall x | 0 <= x < |c| ensures c[0] <= c[x] < m && (x > 0 ==> c[0] < c[x]) {
      assert c[x] in c;
    }
  }

  // ---- fan-in of a full set of combinations ----

  lemma {:induction false} FanInAgree(a: seq<Tuple>, b: seq<Tuple>, n: nat, j: nat)
    requires n <= |a| && n <= |b| && forall i :: 0 <= i < n ==> (j in a[i] <==> j in b[i])
    ensures FanInOf(a, n, j) == FanInOf(b, n, j)
  {
    if n > 0 { FanInAgree(a, b, n - 1, j); }
  }

  lemma {:induction false} FanInConcat(a: seq<Tuple>, b: seq<Tuple>, n: nat, j: nat)
    requires n <= |b|
    ensures FanInOf(a + b, |a| + n, j) == FanIn(a, j) + FanInOf(b, n, j)
  {
    if n == 0 {
      FanInAgree(a + b, a, |a|, j);
    } else {
      FanInConcat(a, b, n - 1, j);
    }
  }

  lemma {:induction false} FanInAll(cs: seq<Tuple>, n: nat, j: nat)
    requires n <= |cs| && forall i :: 0 <= i < n ==> j in cs[i]
    ensures FanInOf(cs, n, j) == n
  {
    if n > 0 { FanInAll(cs, n - 1, j); }
  }

  lemma {:induction false} FanInNone(cs: seq<Tuple>, n: nat, j: nat)
    requires n <= |cs| && forall i :: 0 <= i < n ==> j !in cs[i]
    ensures FanInOf(cs, n, j) == 0
  {
    if n > 0 { FanInNone(cs, n - 1, j); }
  }

  lemma FanInPrepend(x: nat, cs: seq<Tuple>, j: nat)
    ensures FanIn(Prepend(x, cs), j) == if j == x then |cs| else FanIn(cs, j)
  {
    var p := Prepend(x, cs);
    forall i | 0 <= i < |cs| ensures j in p[i] <==> j == x || j in cs[i] {
      assert p[i] == [x] + cs[i];
    }
    if j == x { FanInAll(p, |p|, j); } else { FanInAgree(p, cs, |cs|, j); }
  }

  lemma FanInSplit(all: seq<Tuple>, x: nat, a: seq<Tuple>, b: seq<Tuple>, j: nat)
    requires all == Prepend(x, a) + b
    ensures FanIn(all, j) == (if j == x then |a| else FanIn(a, j)) + FanIn(b, j)
  {
    FanInConcat(Prepend(x, a), b, |b|, j);
    FanInPrepend(x, a, j);
  }

  /** How many combinations contain row j, following the recursion of Comb. */
  function RowCount(lo: nat, m: nat, s: nat, j: nat): nat
    requires lo <= m
    decreases m - lo
  {
    if s == 0 || lo == m then 0
    else (if j == lo then Binom(m - lo - 1, s - 1) else RowCount(lo + 1, m, s - 1, j)) + RowCount(lo + 1, m, s, j)
  }

  lemma RowCountStep(all: seq<Tuple>, a: seq<Tuple>, b: seq<Tuple>, lo: nat, m: nat, s: nat, j: nat)
    requires s > 0 && lo < m && all == Prepend(lo, a) + b
    requires |a| == Binom(m - lo - 1, s - 1)
    requires FanIn(a, j) == RowCount(lo + 1, m, s - 1, j) && FanIn(b, j) == RowCount(lo + 1, m, s, j)
    ensures FanIn(all, j) == RowCount(lo, m, s, j)
  {
    FanInSplit(all, lo, a, b, j);
  }

  /** The combinations, with their number and their row counts, built by the recursion of Comb. */
  lemma {:induction false} CombRows(lo: nat, m: nat, s: nat, j: nat) returns (c: seq<Tuple>)
    requires lo <= m
    ensures c == Comb(lo, m, s)
    ensures |c| == Binom(m - lo, s) && FanIn(c, j) == RowCount(lo, m, s, j)
    decreases m - lo
  {
    hide Prepend, FanIn, Binom, Comb, RowCount;
    CombStep(lo, m, s, j);
    CombSplits(lo, m, s);
    if s == 0 {
      c := [[]];
    } else if lo == m {
      c := [];
    } else {
      var a := CombRows(lo + 1, m, s - 1, j);
      var b := CombRows(lo + 1, m, s, j);
      c := Prepend(lo, a) + b;
      RowCountStep(c, a, b, lo, m, s, j);
    }
  }

  lemma CombStep(lo: nat, m: nat, s: nat, j: nat)
    requires lo <= m
    ensures s == 0 || lo == m ==>
              var c: seq<Tuple> := if s == 0 then [[]] else [];
              Comb(lo, m, s) == c && |c| == Binom(m - lo, s) && FanIn(c, j) == RowCount(lo, m, s, j)
    ensures s > 0 && lo < m ==>
              Binom(m - lo, s) == Binom(m - lo - 1, s - 1) + Binom(m - lo - 1, s)
  {
    if s == 0 { FanInNone([[]], 1, j); }
  }

  lemma {:induction false} RowCountIsBinom(lo: nat, m: nat, s: nat, j: nat)
    requires s > 0 && lo <= m && j < m
    ensures RowCount(lo, m, s, j) == if j < lo then 0 else Binom(m - lo - 1, s - 1)
    decreases m - lo
  {
    if lo < m {
      RowCountIsBinom(lo + 1, m, s, j);
      if s > 1 { RowCountIsBinom(lo + 1, m, s - 1, j); }
    }
  }

  /** Every row is in equally many s-element combinations. */
  lemma CombFanIn(m: nat, s: nat, j: nat)
    requires s > 0 && j < m
    ensures FanIn(Comb(0, m, s), j) == Binom(m - 1, s - 1)
  {
    var c := CombRows(0, m, s, j);
    RowCountIsBinom(0, m, s, j);
  }

  lemma AbsorptionStep(n: nat, s: nat, x: nat, y: nat, z: nat)
    requires n > 1 && s > 0 && s * z == (n - 1) * y && (s - 1) * (x + y) == (n - 1) * x
    ensures s * (x + y + z) == n * (x + y)
  {
    calc {
      s * (x + y + z);
      (s - 1) * (x + y) + (x + y) + s * z;
      (n - 1) * x + (x + y) + (n - 1) * y;
      n * (x + y);
    }
  }

  /** s * C(n,s) == n * C(n-1,s-1) */
  lemma {:induction false} Absorption(n: nat, s: nat)
    requires n > 0 && s > 0
    ensures s * Binom(n, s) == n * Binom(n - 1, s - 1)
  {
    if n == 1 {
      if s > 1 { BinomAbove(1, s); BinomAbove(0, s - 1); }
    } else {
      Absorption(n - 1, s);
      if s == 1 {
        BinomOne(n);
      } else {
        Absorption(n - 1, s - 1);
        AbsorptionStep(n, s, Binom(n - 2, s - 2), Binom(n - 2, s - 1), Binom(n - 1, s));
      }
    }
  }

  lemma {:induction false} BinomAbove(n: nat, s: nat)
    requires s > n
    ensures Binom(n, s) == 0
  {
    if n > 0 {
      BinomAbove(n - 1, s - 1);
      BinomAbove(n - 1, s);
    }
  }

  lemma {:induction false} BinomOne(n: nat)
    ensures Binom(n, 1) == n
  {
    if n > 0 { BinomOne(n - 1); }
  }

  // ---- the odd half of a row of Pascal's triangle ----

  function AllFrom(n: nat, s: nat): nat
    decreases n + 1 - s
  {
    if s > n then 0 else Binom(n, s) + AllFrom(n, s + 1)
  }

  /** C(n,s) + C(n,s+2) + ... */
  function EverySecond(n: nat, s: nat): nat
    decreases n + 2 - s
  {
    if s > n then 0 else Binom(n, s) + EverySecond(n, s + 2)
  }

  lemma {:induction false} EverySecondIsRow(n: nat, s: nat)
    requires n > 0 && s > 0
    ensures EverySecond(n, s) == AllFrom(n - 1, s - 1)
    decreases n + 2 - s
  {
    if s <= n {
      EverySecondIsRow(n, s + 2);
      if s == n { BinomAbove(n - 1, s); }
    }
  }

  lemma {:induction false} RowStep(n: nat, s: nat)
    requires n > 0 && s > 0
    ensures AllFrom(n, s) == AllFrom(n - 1, s - 1) + AllFrom(n - 1, s)
    decreases n + 1 - s
  {
    if s <= n {
      RowStep(n, s + 1);
      if s == n { BinomAbove(n - 1, s); }
    }
  }

  lemma {:induction false} RowSum(n: nat)
    ensures AllFrom(n, 0) == Pow2(n)
  {
    if n > 0 {
      RowStep(n, 1);
      RowSum(n - 1);
    } else {
      assert AllFrom(0, 1) == 0;
    }
  }

  /** There are 2^(m-1) - m odd-weight columns of weight at least three. */
  lemma OddColumns(m: nat)
    requires m > 0
    ensures EverySecond(m, 3) == Pow2(m - 1) - m
  {
    EverySecondIsRow(m, 1);
    RowSum(m - 1);
    BinomOne(m);
    assert EverySecond(m, 1) == Binom(m, 1) + EverySecond(m, 3);
  }
}
