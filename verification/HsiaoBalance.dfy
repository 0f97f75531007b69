/** The ideal fan-in can be reached: columns of equal weight can always be chosen so that the rows are balanced. */
module HsiaoBalance {
  import opened Wrappers
  import opened Bits
  import opened SecdedCode
  import opened Combinations
  import opened HsiaoCode

  // ---- moving an entry of a column to another row ----

  /** The positions of the set bits, in order. */
  function Positions(w: Word): Tuple {
    if w == [] then []
    else
      var n := |w| - 1;
      Positions(w[..n]) + if w[n] then [n] else []
  }

  lemma {:induction false} PositionsSpec(w: Word)
    ensures ValidTuple(Positions(w), |w|) && |Positions(w)| == Ones(w)
    ensures forall p: nat :: p in Positions(w) <==> p < |w| && w[p]
  {
    if w != [] {
      var n := |w| - 1;
      PositionsSpec(w[..n]);
      if w[n] { AppendToTuple(Positions(w[..n]), n); }
      forall p: nat ensures p in Positions(w) <==> p < |w| && w[p] {
        if p < n { assert w[..n][p] == w[p]; }
      }
    }
  }

  lemma {:induction false} FlipCount(w: Word, p: nat, b: bool)
    requires p < |w|
    ensures Ones(w[p := b]) == Ones(w) - (if w[p] then 1 else 0) + if b then 1 else 0
  {
    var n := |w| - 1;
    if p == n {
      assert w[p := b][..n] == w[..n];
    } else {
      assert w[p := b][..n] == w[..n][p := b];
      FlipCount(w[..n], p, b);
    }
  }

  /** The column with its entry in row i moved to row j. */
  function Moved(c: Tuple, m: nat, i: nat, j: nat): Tuple
    requires i < m && j < m
  {
    Positions(Indicator(c, m)[i := false][j := true])
  }

  lemma MovedSpec(c: Tuple, m: nat, i: nat, j: nat)
    requires ValidTuple(c, m) && i < m && j < m && i in c && j !in c
    ensures ValidTuple(Moved(c, m, i, j), m) && |Moved(c, m, i, j)| == |c|
    ensures forall p: nat :: p in Moved(c, m, i, j) <==> (p in c && p != i) || p == j
  {
    var w := Indicator(c, m);
    PositionsSpec(w);
    IndicatorInjective(Positions(w), c, m);
    FlipCount(w, i, false);
    FlipCount(w[i := false], j, true);
    PositionsSpec(w[i := false][j := true]);
  }

  // ---- counting ----

  /** The indices below n of columns in row a but not in row b. */
  ghost function Only(f: seq<Tuple>, n: nat, a: nat, b: nat): set<nat>
    requires n <= |f|
  {
    set x: nat | x < n && a in f[x] && b !in f[x]
  }

  lemma {:induction false} OnlyCount(f: seq<Tuple>, n: nat, a: nat, b: nat)
    requires n <= |f|
    ensures FanInOf(f, n, a) - FanInOf(f, n, b) == |Only(f, n, a, b)| - |Only(f, n, b, a)|
  {
    if n == 0 {
      assert Only(f, 0, a, b) == {} && Only(f, 0, b, a) == {};
    } else {
      var x: nat := n - 1;
      OnlyCount(f, x, a, b);
      OnlyStep(f, x, a, b);
      OnlyStep(f, x, b, a);
    }
  }

  lemma OnlyStep(f: seq<Tuple>, x: nat, a: nat, b: nat)
    requires x < |f|
    ensures |Only(f, x + 1, a, b)| == |Only(f, x, a, b)| + if a in f[x] && b !in f[x] then 1 else 0
  {
    var more: set<nat> := if a in f[x] && b !in f[x] then {x} else {};
    assert Only(f, x + 1, a, b) == Only(f, x, a, b) + more;
    assert Only(f, x, a, b) !! more;
  }

  /** A map that gives different images different sources. */
  lemma {:induction false} Injection(a: set<nat>, b: set<nat>, image: nat -> nat)
    requires forall x :: x in a ==> image(x) in b
    requires forall x, y :: x in a && y in a && x != y ==> image(x) != image(y)
    ensures |a| <= |b|
  {
    if x :| x in a {
      Injection(a - {x}, b - {image(x)}, image);
    }
  }

  /** When row i has more columns than row j, some column can be moved from i to j without meeting another one. */
  lemma MovableColumn(f: seq<Tuple>, m: nat, s: nat, i: nat, j: nat) returns (x: nat)
    requires Layer(f, m, s) && i < m && j < m && FanIn(f, i) > FanIn(f, j)
    ensures x < |f| && i in f[x] && j !in f[x] && Moved(f[x], m, i, j) !in f
  {
    var a, b := Only(f, |f|, i, j), Only(f, |f|, j, i);
    OnlyCount(f, |f|, i, j);
    if forall x :: x in a ==> Moved(f[x], m, i, j) in f {
      AllTaken(f, m, s, i, j);
    }
    x :| x in a && Moved(f[x], m, i, j) !in f;
  }

  lemma AllTaken(f: seq<Tuple>, m: nat, s: nat, i: nat, j: nat)
    requires Layer(f, m, s) && i < m && j < m && i != j
    requires forall x :: x in Only(f, |f|, i, j) ==> Moved(f[x], m, i, j) in f
    ensures |Only(f, |f|, i, j)| <= |Only(f, |f|, j, i)|
  {
    var a, b := Only(f, |f|, i, j), Only(f, |f|, j, i);
    var image: nat -> nat := (x: nat) => if x < |f| then IndexOf(f, Moved(f[x], m, i, j)) else 0;
    forall x | x in a ensures image(x) in b {
      MovedSpec(f[x], m, i, j);
      IndexOfSpec(f, Moved(f[x], m, i, j));
    }
    forall x, y | x in a && y in a && x != y ensures image(x) != image(y) {
      MovedSpec(f[x], m, i, j);
      MovedSpec(f[y], m, i, j);
      IndexOfSpec(f, Moved(f[x], m, i, j));
      IndexOfSpec(f, Moved(f[y], m, i, j));
      if Moved(f[x], m, i, j) == Moved(f[y], m, i, j) {
        MovedInjective(f[x], f[y], m, i, j);
      }
    }
    Injection(a, b, image);
  }

  lemma MovedInjective(c: Tuple, d: Tuple, m: nat, i: nat, j: nat)
    requires ValidTuple(c, m) && ValidTuple(d, m) && i < m && j < m
    requires i in c && j !in c && i in d && j !in d && Moved(c, m, i, j) == Moved(d, m, i, j)
    ensures c == d
  {
    MovedSpec(c, m, i, j);
    MovedSpec(d, m, i, j);
    forall p: nat | p < m ensures p in c <==> p in d {
      assert p != i && p != j ==> (p in c <==> p in Moved(c, m, i, j)) && (p in d <==> p in Moved(d, m, i, j));
    }
    IndicatorInjective(c, d, m);
  }

  function IndexOf(f: seq<Tuple>, c: Tuple): nat {
    if f == [] || f[0] == c then 0 else 1 + IndexOf(f[1..], c)
  }

  lemma {:induction false} IndexOfSpec(f: seq<Tuple>, c: Tuple)
    requires c in f
    ensures IndexOf(f, c) < |f| && f[IndexOf(f, c)] == c
  {
    if f[0] != c {
      IndexOfSpec(f[1..], c);
    }
  }

  lemma {:induction false} FanInReplace(f: seq<Tuple>, x: nat, c: Tuple, n: nat, p: nat)
    requires x < |f| && n <= |f|
    ensures FanInOf(f[x := c], n, p) == FanInOf(f, n, p) +
      if x < n then (if p in c then 1 else 0) - (if p in f[x] then 1 else 0) else 0
  {
    if n > 0 { FanInReplace(f, x, c, n - 1, p); }
  }

  // ---- balancing ----

  /** By how much the first r rows exceed a fan-in of q. */
  function Excess(f: seq<Tuple>, q: nat, r: nat): nat {
    if r == 0 then 0
    else Excess(f, q, r - 1) + if FanIn(f, r - 1) > q then FanIn(f, r - 1) - q else 0
  }

  /** If every row has fan-in q or more and one has more, their sum shows it. */
  lemma {:induction false} RowAbove(f: seq<Tuple>, q: nat, i: nat, r: nat)
    requires i < r && FanIn(f, i) > q && forall j: nat :: j < r ==> FanIn(f, j) >= q
    ensures FanInSum(f, |f|, r) > q * r
  {
    assert q * r == q * (r - 1) + q && FanIn(f, r - 1) >= q;
    if i < r - 1 { RowAbove(f, q, i, r - 1); } else { RowsAtLeast(f, q, r - 1); }
  }

  lemma {:induction false} RowsAtLeast(f: seq<Tuple>, q: nat, r: nat)
    requires forall j: nat :: j < r ==> FanIn(f, j) >= q
    ensures FanInSum(f, |f|, r) >= q * r
  {
    if r > 0 {
      assert q * r == q * (r - 1) + q && FanIn(f, r - 1) >= q;
      RowsAtLeast(f, q, r - 1);
    }
  }

  lemma {:induction false} WeightOfLayer(f: seq<Tuple>, m: nat, s: nat)
    requires Layer(f, m, s)
    ensures Weight(f) == |f| * s
  {
    if f != [] {
      var n := |f| - 1;
      WeightOfLayer(f[..n], m, s);
      assert |f| * s == n * s + s;
    }
  }

  lemma {:induction false} ExcessFalls(f: seq<Tuple>, g: seq<Tuple>, q: nat, i: nat, j: nat, r: nat)
    requires FanIn(f, i) > q > FanIn(f, j) && FanIn(g, i) == FanIn(f, i) - 1 && FanIn(g, j) == FanIn(f, j) + 1
    requires forall p: nat :: p != i && p != j ==> FanIn(g, p) == FanIn(f, p)
    ensures Excess(g, q, r) == Excess(f, q, r) - if i < r then 1 else 0
  {
    if r > 0 { ExcessFalls(f, g, q, i, j, r - 1); }
  }

  lemma MoveColumn(f: seq<Tuple>, m: nat, s: nat, q: nat, i: nat, j: nat) returns (g: seq<Tuple>)
    requires Layer(f, m, s) && i < m && j < m && FanIn(f, i) > q > FanIn(f, j)
    ensures Layer(g, m, s) && |g| == |f| && Excess(g, q, m) < Excess(f, q, m)
  {
    var x := MovableColumn(f, m, s, i, j);
    var c := Moved(f[x], m, i, j);
    MovedSpec(f[x], m, i, j);
    g := f[x := c];
    forall p: nat ensures FanIn(g, p) == FanIn(f, p) + (if p in c then 1 else 0) - (if p in f[x] then 1 else 0) {
      FanInReplace(f, x, c, |f|, p);
    }
    ExcessFalls(f, g, q, i, j, m);
  }

  /** Any layer of at most q * m entries can be rearranged so that no row exceeds q. */
  lemma {:induction false} Balance(f: seq<Tuple>, m: nat, s: nat, q: nat) returns (g: seq<Tuple>)
    requires Layer(f, m, s) && |f| * s <= q * m
    ensures Layer(g, m, s) && |g| == |f| && forall j: nat :: j < m ==> FanIn(g, j) <= q
    decreases Excess(f, q, m)
  {
    if i: nat :| i < m && FanIn(f, i) > q {
      hide FanIn, FanInOf, Layer, Excess;
      var j := RowBelow(f, m, s, q, i);
      var better := MoveColumn(f, m, s, q, i, j);
      g := Balance(better, m, s, q);
    } else {
      g := f;
    }
  }

  lemma RowBelow(f: seq<Tuple>, m: nat, s: nat, q: nat, i: nat) returns (j: nat)
    requires Layer(f, m, s) && |f| * s <= q * m && i < m && FanIn(f, i) > q
    ensures j < m && FanIn(f, j) < q
  {
    WeightOfLayer(f, m, s);
    DoubleCounting(f, m, |f|);
    assert f[..|f|] == f;
    if forall j: nat :: j < m ==> FanIn(f, j) >= q { RowAbove(f, q, i, m); }
    j :| j < m && FanIn(f, j) < q;
  }

  // ---- the ideal is attained ----

  /** Some choice of the remaining columns keeps every row within the ideal. */
  lemma BalancedRest(k: nat, m: nat, codes: seq<Tuple>, step: nat, fanin: nat) returns (rest: seq<Tuple>)
    requires m > 0 && Collected(k, m, codes, step, fanin) && k - |codes| <= Binom(m, step)
    ensures Layer(rest, m, step) && |rest| == k - |codes|
    ensures forall j :: 0 <= j < m ==> FanIn(codes + rest, j) <= fanin + CeilDiv((k - |codes|) * step, m)
  {
    hide Comb, FanIn;
    var n: nat := k - |codes|;
    var q := CeilDiv(n * step, m);
    CombCount(0, m, step);
    CombLayer(m, step);
    CeilDivCovers(n * step, m);
    rest := Balance(Comb(0, m, step)[..n], m, step, q);
    forall j | 0 <= j < m ensures FanIn(codes + rest, j) <= fanin + q { FanInOfConcat(codes, rest, j); }
  }

  lemma {:induction false} CeilDivCovers(a: nat, b: nat)
    requires b > 0
    ensures a <= CeilDiv(a, b) * b
    decreases a
  {
    if a > b {
      CeilDivCovers(a - b, b);
      assert (1 + CeilDiv(a - b, b)) * b == b + CeilDiv(a - b, b) * b;
    }
  }

  /** Two lists of distinct columns with the same members are permutations of each other. */
  lemma SamePermutation(a: seq<Tuple>, b: seq<Tuple>)
    requires Distinct(a) && Distinct(b) && forall x :: x in a <==> x in b
    ensures multiset(a) == multiset(b)
  {
    DistinctByCounts(a);
    DistinctByCounts(b);
    forall x ensures multiset(a)[x] == multiset(b)[x] {
      if x !in a { assert x !in multiset(a) && x !in multiset(b); }
    }
  }

  /** The columns of a list that are not in another. */
  function Others(all: seq<Tuple>, some: seq<Tuple>): seq<Tuple> {
    if all == [] then []
    else
      var n := |all| - 1;
      Others(all[..n], some) + if all[n] in some then [] else [all[n]]
  }

  lemma {:induction false} OthersSpec(all: seq<Tuple>, some: seq<Tuple>)
    requires Distinct(all)
    ensures Distinct(Others(all, some))
    ensures forall x :: x in Others(all, some) <==> x in all && x !in some
  {
    if all != [] {
      var n := |all| - 1;
      OthersSpec(all[..n], some);
      assert all == all[..n] + [all[n]];
      assert all[n] !in all[..n];
    }
  }

  /** In every search of the construction some shuffle succeeds. */
  lemma SomeShuffleSucceeds(k: nat, m: nat, codes: seq<Tuple>, step: nat, fanin: nat) returns (shuffled: seq<Tuple>)
    requires m > 0 && Collected(k, m, codes, step, fanin) && k - |codes| <= Binom(m, step)
    ensures multiset(shuffled) == multiset(Comb(0, m, step)) && k - |codes| <= |shuffled|
    ensures var taken := codes + shuffled[..k - |codes|];
            forall j :: 0 <= j < m ==> FanIn(taken, j) <= fanin + CeilDiv((k - |codes|) * step, m)
  {
    hide Comb, FanIn, Collected;
    var all := Comb(0, m, step);
    var rest := BalancedRest(k, m, codes, step, fanin);
    CombLayer(m, step);
    OthersSpec(all, rest);
    shuffled := rest + Others(all, rest);
    forall i | 0 <= i < |rest| ensures rest[i] in all {
      assert forall p :: p in rest[i] ==> p < m;
      CombComplete(0, m, rest[i]);
    }
    DistinctConcat(rest, Others(all, rest));
    SamePermutation(shuffled, all);
    assert shuffled[..k - |codes|] == rest;
  }

  /** The layers that fit are collected one after the other. */
  lemma {:induction false} LayersCollected(k: nat, m: nat, codes: seq<Tuple>, step: nat, fanin: nat)
    returns (total: nat)
    requires m > 0 && Collected(k, m, codes, step, fanin) && k - |codes| <= EverySecond(m, step)
    ensures var (more, rest, last) := Layers(k - |codes|, m, step);
            && Collected(k, m, codes + more, last, total) && rest == k - |codes + more|
            && total + Ideal(rest, last, m) == fanin + Ideal(k - |codes|, step, m)
            && (rest > 0 ==> last <= m && rest < Binom(m, last))
    decreases m + 2 - step
  {
    hide Comb, FanIn, Collected, HsiaoMatrix, CeilDiv, Binom, Ideal, EverySecond, Layers;
    CollectedMeans(k, m, codes, step, fanin);
    var n: nat := k - |codes|;
    LayersNext(n, m, step);
    if n > 0 && step <= m && Binom(m, step) <= n {
      LayerStep(n, step, m);
      AddAllColumns(k, m, codes, step, fanin);
      total := LayersCollected(k, m, codes + Comb(0, m, step), step + 2, fanin + CeilDiv(Binom(m, step) * step, m));
      var more := Layers(n - Binom(m, step), m, step + 2).0;
      assert codes + (Comb(0, m, step) + more) == codes + Comb(0, m, step) + more;
    } else {
      total := fanin;
      assert codes + [] == codes;
      if step > m { NoLayers(m, step); }
    }
  }

  /** Whatever the size, some way of shuffling makes the construction succeed at the first try. */
  lemma SomeShuffleIsAccepted(k: nat, m: nat) returns (shuffle: Shuffle)
    requires k > 0 && m > 0 && k + m <= Pow2(m - 1)
    ensures Permutes(shuffle)
    ensures var (whole, rest, last) := Layers(k, m, 3);
            rest > 0 ==> last <= m && FirstAccepted(m, whole, last, rest, Ideal(k, 3, m), shuffle, 1)
  {
    hide Comb, FanIn, Collected, Layers, CeilDiv, EverySecond, Pow2, Permutes, FirstAccepted, Ideal, Binom, Fixed;
    OddColumns(m);
    NothingCollected(k, m);
    var total := LayersCollected(k, m, [], 3, 0);
    var (whole, rest, last) := Layers(k, m, 3);
    assert [] + whole == whole;
    if rest == 0 {
      shuffle := Fixed([], []);
      NothingMoved();
    } else {
      var cs := SomeShuffleSucceeds(k, m, whole, last, total);
      shuffle := Fixed(Comb(0, m, last), cs);
      LayerStep(rest, last, m);
      FixedAccepted(m, whole, last, rest, Ideal(k, 3, m), cs);
    }
  }

  lemma NothingMoved()
    ensures Permutes(Fixed([], []))
  {
  }

  /** Puts one list into a given order. */
  function Fixed(all: seq<Tuple>, cs: seq<Tuple>): Shuffle {
    (i, a) => if a == all then cs else a
  }

  lemma FixedAccepted(m: nat, codes: seq<Tuple>, step: nat, required: nat, fanin: nat, cs: seq<Tuple>)
    requires multiset(cs) == multiset(Comb(0, m, step)) && required <= |cs|
    requires forall j :: 0 <= j < m ==> FanIn(codes + cs[..required], j) <= fanin
    ensures Permutes(Fixed(Comb(0, m, step), cs))
    ensures FirstAccepted(m, codes, step, required, fanin, Fixed(Comb(0, m, step), cs), 1)
  {
    hide Comb, FanIn;
    var all := Comb(0, m, step);
    NoShuffle(Fixed(all, cs), all);
    assert Shuffled(Fixed(all, cs), 1, all) == cs;
    assert Choice(Fixed(all, cs), 1, m, step, required) == cs[..required];
  }

  /** Completing a matrix from the layers collected so far. */
  lemma {:induction false} Attain(k: nat, m: nat, codes: seq<Tuple>, step: nat, fanin: nat)
    returns (all: seq<Tuple>)
    requires m > 0 && Collected(k, m, codes, step, fanin) && k - |codes| <= EverySecond(m, step)
    ensures HsiaoMatrix(k, m, all)
    ensures forall j :: 0 <= j < m ==> FanIn(all, j) <= fanin + Ideal(k - |codes|, step, m)
    decreases m + 2 - step
  {
    hide Comb, FanIn;
    if k == |codes| {
      all := codes;
    } else if Binom(m, step) <= k - |codes| {
      AddAllColumns(k, m, codes, step, fanin);
      all := Attain(k, m, codes + Comb(0, m, step), step + 2, fanin + CeilDiv(Binom(m, step) * step, m));
    } else {
      var rest := BalancedRest(k, m, codes, step, fanin);
      AddSubset(k, m, codes, rest, step);
      all := codes + rest;
    }
  }

  /** The ideal fan-in is attained: for every size the construction covers there is a matrix it can return. */
  lemma IdealIsAttained(k: nat, m: nat) returns (codes: seq<Tuple>)
    requires m > 0 && k + m <= Pow2(m - 1)
    ensures HsiaoMatrix(k, m, codes)
    ensures forall j :: 0 <= j < m ==> FanIn(codes, j) <= Ideal(k, 3, m)
  {
    OddColumns(m);
    NothingCollected(k, m);
    codes := Attain(k, m, [], 3, 0);
  }
}
