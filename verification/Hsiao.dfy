/** The Hsiao code search: what any matrix it can return satisfies, and that its fan-in is optimal. */
module HsiaoCode {
  import opened Wrappers
  import opened Bits
  import opened SecdedCode
  import opened SecdedTheorem
  import opened Combinations

  // ---- ideal fan-in ----

  /** `math.ceil(a / b)` without floating point. */
  function CeilDiv(a: nat, b: nat): nat
    requires b > 0
  {
    if a == 0 then 0 else if a <= b then 1 else 1 + CeilDiv(a - b, b)
  }

  /** `ideal_fanin` from weight s on, with `needed` columns still to find. */
  function Ideal(needed: nat, s: nat, m: nat): nat
    requires m > 0
    decreases m + 2 - s
  {
    if s > m || needed == 0 then 0
    else if Binom(m, s) <= needed then CeilDiv(Binom(m, s) * s, m) + Ideal(needed - Binom(m, s), s + 2, m)
    else CeilDiv(needed * s, m)
  }

  method IdealFanIn(k: nat, m: nat) returns (fanin: nat)
    requires m > 0
    ensures fanin == Ideal(k, 3, m)
  {
    hide Comb;
    fanin := 0;
    var needed: nat := k;
    var select: nat := 3;
    while select <= m
      invariant fanin + Ideal(needed, select, m) == Ideal(k, 3, m)
      decreases m + 2 - select
    {
      var combinations := Comb(0, m, select);
      CombCount(0, m, select);
      if |combinations| <= needed {
        fanin := fanin + CeilDiv(|combinations| * select, m);
        needed := needed - |combinations|;
      } else {
        fanin := fanin + CeilDiv(needed * select, m);
        needed := 0;
      }
      if needed == 0 {
        break;
      }
      select := select + 2;
    }
  }

  // ---- the search ----

  /** What the generator promises of its matrix: k distinct columns of odd weight at least three. */
  ghost predicate HsiaoMatrix(k: nat, m: nat, codes: seq<Tuple>) {
    && |codes| == k
    && Distinct(codes)
    && ValidCodes(codes, m)
    && forall i :: 0 <= i < |codes| ==> |codes[i]| >= 3 && |codes[i]| % 2 == 1
  }

  /** What `random.shuffle` makes of a list when it is called for the i-th time. */
  type Shuffle = (nat, seq<Tuple>) -> seq<Tuple>

  ghost predicate Permutes(shuffle: Shuffle) {
    forall i, cs :: multiset(shuffle(i, cs)) == multiset(cs)
  }

  /** A list shuffled in place n times. */
  function Shuffled(shuffle: Shuffle, n: nat, cs: seq<Tuple>): seq<Tuple> {
    if n == 0 then cs else shuffle(n - 1, Shuffled(shuffle, n - 1, cs))
  }

  lemma {:induction false} ShuffledSame(shuffle: Shuffle, n: nat, cs: seq<Tuple>)
    requires Permutes(shuffle)
    ensures multiset(Shuffled(shuffle, n, cs)) == multiset(cs) && |Shuffled(shuffle, n, cs)| == |cs|
  {
    if n > 0 { ShuffledSame(shuffle, n - 1, cs); }
    assert |Shuffled(shuffle, n, cs)| == |multiset(Shuffled(shuffle, n, cs))|;
  }

  /** With this choice from a layer no row exceeds the fan-in. */
  ghost predicate Accepted(m: nat, codes: seq<Tuple>, chosen: seq<Tuple>, fanin: nat) {
    forall j :: 0 <= j < m ==> FanIn(codes + chosen, j) <= fanin
  }

  /** The beginning of a layer after n shuffles. */
  function Choice(shuffle: Shuffle, n: nat, m: nat, step: nat, required: nat): seq<Tuple> {
    var cs := Shuffled(shuffle, n, Comb(0, m, step));
    if required <= |cs| then cs[..required] else cs
  }

  /** The n-th shuffle is the first whose beginning is accepted. */
  ghost predicate FirstAccepted(m: nat, codes: seq<Tuple>, step: nat, required: nat, fanin: nat, shuffle: Shuffle,
                                n: nat) {
    && n >= 1 && Accepted(m, codes, Choice(shuffle, n, m, step, required), fanin)
    && forall i :: 1 <= i < n ==> !Accepted(m, codes, Choice(shuffle, i, m, step, required), fanin)
  }

  /** The tuples collected before weight `step`, all with the same fan-in on every row. */
  ghost predicate Collected(k: nat, m: nat, codes: seq<Tuple>, step: nat, fanin: nat) {
    && step >= 3 && step % 2 == 1
    && |codes| <= k
    && HsiaoMatrix(|codes|, m, codes)
    && (forall i :: 0 <= i < |codes| ==> |codes[i]| < step)
    && (forall j :: 0 <= j < m ==> FanIn(codes, j) == fanin)
  }

  /** Whether no row exceeds the ideal fan-in. */
  method WithinIdeal(m: nat, fanins: seq<nat>, subsetFanins: seq<nat>, fanin: nat) returns (ideal: bool)
    requires |fanins| == |subsetFanins| == m
    ensures ideal <==> forall j :: 0 <= j < m ==> fanins[j] + subsetFanins[j] <= fanin
  {
    for i := 0 to m
      invariant forall j :: 0 <= j < i ==> fanins[j] + subsetFanins[j] <= fanin
    {
      if fanins[i] + subsetFanins[i] > fanin {
        return false;
      }
    }
    return true;
  }

  /** The shuffle loop: the first of at most `tries` shuffles of a layer whose beginning keeps every row within the
      ideal fan-in. */
  method FindSubset(m: nat, codes: seq<Tuple>, step: nat, required: nat, fanin: nat, shuffle: Shuffle, tries: nat)
    returns (r: Option<seq<Tuple>>)
    requires ValidCodes(codes, m) && required <= |Comb(0, m, step)| && Permutes(shuffle)
    ensures r.Some? ==> |r.value| == required && Layer(r.value, m, step) && Accepted(m, codes, r.value, fanin)
    ensures match r
            case None =>
              forall n :: 1 <= n <= tries ==> !Accepted(m, codes, Choice(shuffle, n, m, step, required), fanin)
            case Some(subset) =>
              exists n :: 1 <= n <= tries && subset == Choice(shuffle, n, m, step, required)
                       && FirstAccepted(m, codes, step, required, fanin, shuffle, n)
  {
    hide Comb, FanIn, Accepted, Choice, Shuffled, Layer, Permutes;
    NoShuffle(shuffle, Comb(0, m, step));
    var candidate := Comb(0, m, step);
    var fanins := CalcFanIn(m, codes);
    for n := 0 to tries
      invariant candidate == Shuffled(shuffle, n, Comb(0, m, step))
      invariant forall i :: 1 <= i <= n ==> !Accepted(m, codes, Choice(shuffle, i, m, step, required), fanin)
    {
      candidate := shuffle(n, candidate);
      ChoiceIs(shuffle, n, m, step, required);
      var subset := candidate[..required];
      var subsetFanins := CalcFanIn(m, subset);
      var ideal := WithinIdeal(m, fanins, subsetFanins, fanin);
      AcceptedMeans(m, codes, subset, fanin, fanins, subsetFanins);
      if ideal { return Some(subset); }
    }
    return None;
  }

  lemma NoShuffle(shuffle: Shuffle, cs: seq<Tuple>)
    ensures Shuffled(shuffle, 0, cs) == cs
  {
  }

  /** One more shuffle, and the beginning of the layer after it. */
  lemma ChoiceIs(shuffle: Shuffle, n: nat, m: nat, step: nat, required: nat)
    requires required <= |Comb(0, m, step)| && Permutes(shuffle)
    ensures var cs := Shuffled(shuffle, n + 1, Comb(0, m, step));
            && cs == shuffle(n, Shuffled(shuffle, n, Comb(0, m, step)))
            && required <= |cs| && Choice(shuffle, n + 1, m, step, required) == cs[..required]
            && Layer(cs[..required], m, step) && ValidCodes(cs[..required], m)
  {
    hide Comb;
    ShuffledSame(shuffle, n + 1, Comb(0, m, step));
    ShuffledSubset(Shuffled(shuffle, n + 1, Comb(0, m, step)), m, step, required);
  }

  lemma AcceptedMeans(m: nat, codes: seq<Tuple>, chosen: seq<Tuple>, fanin: nat, a: seq<nat>, b: seq<nat>)
    requires |a| == |b| == m
    requires forall j :: 0 <= j < m ==> a[j] == FanIn(codes, j) && b[j] == FanIn(chosen, j)
    ensures Accepted(m, codes, chosen, fanin) <==> forall j :: 0 <= j < m ==> a[j] + b[j] <= fanin
  {
    hide FanIn;
    forall j ensures FanIn(codes + chosen, j) == FanIn(codes, j) + FanIn(chosen, j) { FanInOfConcat(codes, chosen, j); }
  }

  // ---- the layers ----

  /** All columns of weight `step`, `step` + 2, ... as long as whole layers fit into k columns; how many columns are
      missing then, and the weight reached. */
  function Layers(k: nat, m: nat, step: nat): (seq<Tuple>, nat, nat)
    decreases m + 2 - step
  {
    if k == 0 || step > m || Binom(m, step) > k then ([], k, step)
    else
      var (codes, rest, last) := Layers(k - Binom(m, step), m, step + 2);
      (Comb(0, m, step) + codes, rest, last)
  }

  lemma LayersNext(k: nat, m: nat, step: nat)
    ensures k == 0 || step > m || Binom(m, step) > k ==> Layers(k, m, step) == ([], k, step)
    ensures k > 0 && step <= m && Binom(m, step) <= k ==>
              var (codes, rest, last) := Layers(k - Binom(m, step), m, step + 2);
              Layers(k, m, step) == (Comb(0, m, step) + codes, rest, last)
  {
  }

  /** The whole layers are all columns of odd weight from `step` up to the weight reached, each once. */
  lemma {:induction false} WholeLayers(k: nat, m: nat, step: nat)
    ensures var (codes, rest, last) := Layers(k, m, step);
            && |codes| + rest == k && last >= step && (last - step) % 2 == 0
            && (rest == 0 || last > m || rest < Binom(m, last))
            && Distinct(codes)
            && forall c :: c in codes <==> ValidTuple(c, m) && step <= |c| < last && (|c| - step) % 2 == 0
    decreases m + 2 - step
  {
    hide Comb, ValidTuple, Binom;
    LayersNext(k, m, step);
    if k > 0 && step <= m && Binom(m, step) <= k {
      hide Layers, Distinct;
      WholeLayers(k - Binom(m, step), m, step + 2);
      CombCount(0, m, step);
      CombDistinct(0, m, step);
      forall c ensures c in Comb(0, m, step) <==> ValidTuple(c, m) && |c| == step { LayerMembers(m, step, c); }
      OneMoreLayer(Comb(0, m, step), Layers(k - Binom(m, step), m, step + 2).0, m, step, Layers(k, m, step).2);
    }
  }

  lemma OneMoreLayer(all: seq<Tuple>, more: seq<Tuple>, m: nat, step: nat, last: nat)
    requires last >= step + 2 && (last - (step + 2)) % 2 == 0 && Distinct(all) && Distinct(more)
    requires forall c :: c in all <==> ValidTuple(c, m) && |c| == step
    requires forall c :: c in more <==> ValidTuple(c, m) && step + 2 <= |c| < last && (|c| - (step + 2)) % 2 == 0
    ensures Distinct(all + more) && (last - step) % 2 == 0
    ensures forall c :: c in all + more <==> ValidTuple(c, m) && step <= |c| < last && (|c| - step) % 2 == 0
  {
    hide ValidTuple, Distinct;
    forall c ensures c in all + more <==> ValidTuple(c, m) && step <= |c| < last && (|c| - step) % 2 == 0 {
      NextWeight(|c|, step, last);
    }
    DistinctConcat(all, more);
  }

  lemma NextWeight(w: nat, step: nat, last: nat)
    requires last >= step + 2 && (last - (step + 2)) % 2 == 0
    ensures w == step || (step + 2 <= w < last && (w - (step + 2)) % 2 == 0) <==>
              step <= w < last && (w - step) % 2 == 0
    ensures (last - step) % 2 == 0
  {
  }

  lemma LayerMembers(m: nat, step: nat, c: Tuple)
    ensures c in Comb(0, m, step) <==> ValidTuple(c, m) && |c| == step
  {
    hide Comb;
    if c in Comb(0, m, step) {
      var i :| 0 <= i < |Comb(0, m, step)| && Comb(0, m, step)[i] == c;
      CombElements(0, m, step, i);
    }
    if ValidTuple(c, m) && |c| == step { CombComplete(0, m, c); }
  }

  lemma FanInOfConcat(a: seq<Tuple>, b: seq<Tuple>, j: nat)
    ensures FanIn(a + b, j) == FanIn(a, j) + FanIn(b, j)
  {
    FanInConcat(a, b, |b|, j);
  }

  /** `_hsiao_code`: take all columns of weight 3, 5, ... while they fit, then a subset of the next weight. */
  method MakeHsiaoCode(k: nat, m: nat, shuffle: Shuffle, tries: nat) returns (r: Option<seq<Tuple>>)
    requires k > 0 && m > 0 && k + m <= Pow2(m - 1) && Permutes(shuffle)
    ensures r.Some? ==> HsiaoMatrix(k, m, r.value)
    ensures r.Some? ==> forall j :: 0 <= j < m ==> FanIn(r.value, j) <= Ideal(k, 3, m)
    ensures var (whole, rest, last) := Layers(k, m, 3);
            if rest == 0 then r == Some(whole)
            else
              match r
              case None =>
                forall n :: 1 <= n <= tries ==> !Accepted(m, whole, Choice(shuffle, n, m, last, rest), Ideal(k, 3, m))
              case Some(codes) =>
                exists n :: 1 <= n <= tries && codes == whole + Choice(shuffle, n, m, last, rest)
                         && FirstAccepted(m, whole, last, rest, Ideal(k, 3, m), shuffle, n)
  {
    hide Comb, FanIn, Ideal, Binom, EverySecond, CeilDiv, Collected, HsiaoMatrix, Layer, Layers, Accepted, Choice,
         FirstAccepted, Pow2;
    var required: nat := k;
    var ideal := IdealFanIn(k, m);
    var codes: seq<Tuple> := [];
    var step: nat := 3;
    OddColumns(m);
    NothingCollected(k, m);
    assert [] + Layers(k, m, 3).0 == Layers(k, m, 3).0;
    ghost var fanin: nat := 0;
    while step <= m
      invariant required == k - |codes| > 0
      invariant required <= EverySecond(m, step)
      invariant Collected(k, m, codes, step, fanin)
      invariant ideal == fanin + Ideal(required, step, m) == Ideal(k, 3, m)
      invariant var (more, rest, last) := Layers(required, m, step); Layers(k, m, 3) == (codes + more, rest, last)
      decreases m + 2 - step
    {
      var candidate := Comb(0, m, step);
      CombCount(0, m, step);
      LayerStep(required, step, m);
      LayersNext(required, m, step);
      CollectedMeans(k, m, codes, step, fanin);
      if |candidate| <= required {
        AddAllColumns(k, m, codes, step, fanin);
        ghost var more := Layers(required - |candidate|, m, step + 2).0;
        assert codes + (candidate + more) == codes + candidate + more;
        codes := codes + candidate;
        fanin := fanin + CeilDiv(Binom(m, step) * step, m);
        required := required - |candidate|;
        if required == 0 {
          LayersNext(0, m, step + 2);
          assert codes + [] == codes;
          CollectedMeans(k, m, codes, step + 2, fanin);
          return Some(codes);
        }
      } else {
        assert codes + [] == codes;
        var subset := FindSubset(m, codes, step, required, ideal, shuffle, tries);
        if subset.None? {
          return None;
        }
        AddSubset(k, m, codes, subset.value, step);
        AcceptedIs(m, codes, subset.value, ideal);
        return Some(codes + subset.value);
      }
      step := step + 2;
    }
    NoLayers(m, step);
    assert false;
  }

  lemma AcceptedIs(m: nat, codes: seq<Tuple>, chosen: seq<Tuple>, fanin: nat)
    requires Accepted(m, codes, chosen, fanin)
    ensures forall j :: 0 <= j < m ==> FanIn(codes + chosen, j) <= fanin
  {
  }

  /** What one layer contributes to the ideal and to the number of columns there are. */
  lemma LayerStep(required: nat, step: nat, m: nat)
    requires m > 0 && step <= m && required > 0
    ensures EverySecond(m, step) == Binom(m, step) + EverySecond(m, step + 2)
    ensures Ideal(required, step, m) ==
            if Binom(m, step) <= required then
              CeilDiv(Binom(m, step) * step, m) + Ideal(required - Binom(m, step), step + 2, m)
            else CeilDiv(required * step, m)
    ensures Ideal(0, step + 2, m) == 0
  {
  }

  lemma NoLayers(m: nat, step: nat)
    requires step > m
    ensures EverySecond(m, step) == 0
  {
  }

  lemma CollectedMeans(k: nat, m: nat, codes: seq<Tuple>, step: nat, fanin: nat)
    requires Collected(k, m, codes, step, fanin)
    ensures step >= 3 && step % 2 == 1 && |codes| <= k
    ensures HsiaoMatrix(|codes|, m, codes) && ValidCodes(codes, m)
    ensures forall i :: 0 <= i < |codes| ==> |codes[i]| < step
    ensures forall j :: 0 <= j < m ==> FanIn(codes, j) == fanin
  {
  }

  lemma NothingCollected(k: nat, m: nat)
    ensures Collected(k, m, [], 3, 0)
  {
  }

  /** A tuple of distinct, equal-weight combinations. */
  ghost predicate Layer(cs: seq<Tuple>, m: nat, step: nat) {
    && Distinct(cs)
    && ValidCodes(cs, m)
    && forall i :: 0 <= i < |cs| ==> |cs[i]| == step
  }

  lemma CombLayer(m: nat, step: nat)
    ensures Layer(Comb(0, m, step), m, step)
  {
    CombDistinct(0, m, step);
    forall i | 0 <= i < |Comb(0, m, step)|
      ensures |Comb(0, m, step)[i]| == step && ValidTuple(Comb(0, m, step)[i], m)
    {
      CombElements(0, m, step, i);
    }
  }

  /** A permutation of a layer is a layer, and so is its beginning. */
  lemma ShuffledSubset(cs: seq<Tuple>, m: nat, step: nat, n: nat)
    requires multiset(cs) == multiset(Comb(0, m, step)) && n <= |cs|
    ensures Layer(cs[..n], m, step)
  {
    var all := Comb(0, m, step);
    CombLayer(m, step);
    DistinctByCounts(all);
    forall x | x in cs ensures x in all && multiset(cs)[x] == 1 {
      assert x in multiset(cs);
    }
    DistinctByCounts(cs);
    forall i | 0 <= i < n ensures ValidTuple(cs[..n][i], m) && |cs[..n][i]| == step {
      assert cs[i] in all;
    }
  }

  lemma AddSubset(k: nat, m: nat, codes: seq<Tuple>, layer: seq<Tuple>, step: nat)
    requires step >= 3 && step % 2 == 1
    requires HsiaoMatrix(|codes|, m, codes) && forall i :: 0 <= i < |codes| ==> |codes[i]| < step
    requires Layer(layer, m, step)
    ensures HsiaoMatrix(|codes| + |layer|, m, codes + layer)
    ensures forall i :: 0 <= i < |codes + layer| ==> |(codes + layer)[i]| < step + 2
  {
  }

  /** s * C(m,s) / m is the whole number C(m-1,s-1), the fan-in a full layer adds. */
  lemma FullLayerFanIn(m: nat, s: nat)
    requires m > 0 && s > 0
    ensures Binom(m, s) * s == m * Binom(m - 1, s - 1)
    ensures CeilDiv(Binom(m, s) * s, m) == Binom(m - 1, s - 1)
  {
    Absorption(m, s);
    CeilOfMultiple(Binom(m - 1, s - 1), 0, m);
  }

  lemma {:induction false} CeilOfMultiple(q: nat, x: nat, m: nat)
    requires m > 0
    ensures CeilDiv(m * q + x, m) == q + CeilDiv(x, m)
  {
    if q > 0 {
      CeilOfMultiple(q - 1, x, m);
      assert m * q + x == m + (m * (q - 1) + x);
      if m * (q - 1) + x == 0 { assert m * q + x == m; }
    }
  }

  lemma AddAllColumns(k: nat, m: nat, codes: seq<Tuple>, step: nat, fanin: nat)
    requires m > 0 && Collected(k, m, codes, step, fanin) && Binom(m, step) <= k - |codes|
    ensures |Comb(0, m, step)| == Binom(m, step)
    ensures Collected(k, m, codes + Comb(0, m, step), step + 2, fanin + CeilDiv(Binom(m, step) * step, m))
  {
    hide Comb, FanInOf;
    var layer := Comb(0, m, step);
    CombCount(0, m, step);
    CombLayer(m, step);
    AddSubset(k, m, codes, layer, step);
    FullLayerFanIn(m, step);
    forall j | 0 <= j < m ensures FanIn(codes + layer, j) == fanin + CeilDiv(Binom(m, step) * step, m) {
      FanInOfConcat(codes, layer, j);
      CombFanIn(m, step, j);
    }
  }

  // ---- SECDED ----

  /** A tuple over m rows without its last row. */
  function DropRow(c: Tuple, m: nat): Tuple
    requires m > 0
  {
    if m - 1 in c && c != [] then c[..|c| - 1] else c
  }

  lemma DropRowSpec(c: Tuple, m: nat)
    requires m > 0 && ValidTuple(c, m)
    ensures ValidTuple(DropRow(c, m), m - 1)
    ensures m - 1 in c ==> c == DropRow(c, m) + [m - 1]
    ensures forall j: nat :: j < m - 1 ==> (j in c <==> j in DropRow(c, m))
  {
    if m - 1 in c && c != [] {
      var t, x := c[..|c| - 1], c[|c| - 1];
      ShorterTuple(c, m);
      assert c == t + [x];
      assert x == m - 1;
    }
  }

  lemma NoRows(c: Tuple)
    requires ValidTuple(c, 0)
    ensures c == []
  {
    FirstMember(c);
  }

  lemma {:induction false} RedXorIndicator(c: Tuple, m: nat)
    requires ValidTuple(c, m)
    ensures RedXor(Indicator(c, m)) == (|c| % 2 == 1)
    decreases m
  {
    if m == 0 {
      NoRows(c);
    } else {
      DropRowSpec(c, m);
      RedXorIndicator(DropRow(c, m), m - 1);
      assert Indicator(c, m)[..m - 1] == Indicator(DropRow(c, m), m - 1);
    }
  }

  /** Tuples are determined by their columns. */
  lemma {:induction false} IndicatorInjective(c: Tuple, d: Tuple, m: nat)
    requires ValidTuple(c, m) && ValidTuple(d, m)
    requires forall j: nat :: j < m ==> (j in c <==> j in d)
    ensures c == d
    decreases m
  {
    if m == 0 {
      NoRows(c);
      NoRows(d);
    } else {
      DropRowSpec(c, m);
      DropRowSpec(d, m);
      IndicatorInjective(DropRow(c, m), DropRow(d, m), m - 1);
      assert m - 1 in c <==> m - 1 in d;
    }
  }

  /** Tuple p of the extended matrix: the data tuples, then one singleton per parity bit. */
  function FullTuple(k: nat, codes: seq<Tuple>, p: nat): Tuple
    requires |codes| == k
  {
    if p < k then codes[p] else [p - k]
  }

  lemma HsiaoColumn(k: nat, m: nat, codes: seq<Tuple>, p: nat)
    requires HsiaoMatrix(k, m, codes) && p < k + m
    ensures ValidTuple(FullTuple(k, codes, p), m)
    ensures |FullTuple(k, codes, p)| % 2 == 1
    ensures Column(k, m, codes, p) == Indicator(FullTuple(k, codes, p), m)
  {
    var t := FullTuple(k, codes, p);
    forall j | 0 <= j < m ensures Bit(DecMask(k, codes, j), p) == (j in t) {
      MaskBound(codes, j);
      Pow2Monotone(k, k + j);
      AddPow2(Mask(codes, j), k + j, p);
      MaskBit(codes, j, p);
    }
  }

  lemma HsiaoIsGood(k: nat, m: nat, codes: seq<Tuple>)
    requires m > 0 && HsiaoMatrix(k, m, codes)
    ensures GoodMatrix(k, m, codes, false)
  {
    hide Mask, Column, Indicator;
    assert codes[..k] == codes;
    forall j | 0 <= j < m ensures Mask(codes, j) < Pow2(k + j) {
      MaskBound(codes, j);
      Pow2Monotone(k, k + j);
    }
    forall p | 0 <= p < k + m
      ensures p < k ==> Column(k, m, codes, p) == Indicator(codes[p], m)
      ensures Flag(false, Column(k, m, codes, p))
    {
      HsiaoColumn(k, m, codes, p);
      RedXorIndicator(FullTuple(k, codes, p), m);
    }
    forall p, q | 0 <= p < q < k + m ensures Column(k, m, codes, p) != Column(k, m, codes, q) {
      HsiaoColumn(k, m, codes, p);
      HsiaoColumn(k, m, codes, q);
      DifferentColumns(FullTuple(k, codes, p), FullTuple(k, codes, q), m);
    }
  }

  lemma DifferentColumns(c: Tuple, d: Tuple, m: nat)
    requires ValidTuple(c, m) && ValidTuple(d, m) && c != d
    ensures Indicator(c, m) != Indicator(d, m)
  {
    if forall j: nat :: j < m ==> (j in c <==> j in d) {
      IndicatorInjective(c, d, m);
    } else {
      var j: nat :| j < m && (j in c) != (j in d);
      assert Indicator(c, m)[j] != Indicator(d, m)[j];
    }
  }

  /** Main theorem: every matrix the search can return gives a SECDED code, inverted or not. */
  lemma HsiaoSecded(k: nat, m: nat, codes: seq<Tuple>, kind: Kind)
    requires m > 0 && HsiaoMatrix(k, m, codes) && !kind.IsHamming()
    ensures Secded(k, m, codes, kind)
  {
    HsiaoIsGood(k, m, codes);
    GoodMatrixIsSecded(k, m, codes, kind);
  }

  // ---- optimality of the fan-in ----

  /** Least total weight of `needed` distinct odd columns of weight s or more. */
  function Lightest(needed: nat, s: nat, m: nat): nat
    decreases m + 2 - s
  {
    if s > m then 0
    else if Binom(m, s) <= needed then Binom(m, s) * s + Lightest(needed - Binom(m, s), s + 2, m)
    else needed * s
  }

  lemma {:induction false} IdealIsCeiling(needed: nat, s: nat, m: nat)
    requires m > 0 && s > 0
    ensures Ideal(needed, s, m) == CeilDiv(Lightest(needed, s, m), m)
    decreases m + 2 - s
  {
    hide Binom;
    if s <= m {
      if Binom(m, s) <= needed {
        var rest := Lightest(needed - Binom(m, s), s + 2, m);
        IdealIsCeiling(needed - Binom(m, s), s + 2, m);
        FullLayerFanIn(m, s);
        CeilOfMultiple(Binom(m - 1, s - 1), rest, m);
        if needed == 0 { NothingNeeded(s + 2, m); }
      }
    }
  }

  lemma {:induction false} NothingNeeded(s: nat, m: nat)
    ensures Lightest(0, s, m) == 0
    decreases m + 2 - s
  {
    if s <= m { NothingNeeded(s + 2, m); }
  }

  function Weight(codes: seq<Tuple>): nat {
    if codes == [] then 0 else Weight(codes[..|codes| - 1]) + |codes[|codes| - 1]|
  }

  /** Sum of the fan-ins of the first r rows, over the first n tuples. */
  function FanInSum(codes: seq<Tuple>, n: nat, r: nat): nat
    requires n <= |codes|
  {
    if r == 0 then 0 else FanInSum(codes, n, r - 1) + FanInOf(codes, n, r - 1)
  }

  /** The entries of c among the first r rows. */
  function Entries(c: Tuple, r: nat): nat {
    if r == 0 then 0 else Entries(c, r - 1) + (if r - 1 in c then 1 else 0)
  }

  lemma {:induction false} EntriesOfTuple(c: Tuple, m: nat)
    requires ValidTuple(c, m)
    ensures Entries(c, m) == |c|
    decreases m
  {
    if m == 0 {
      NoRows(c);
    } else {
      DropRowSpec(c, m);
      EntriesOfTuple(DropRow(c, m), m - 1);
      SameEntries(c, DropRow(c, m), m - 1);
    }
  }

  lemma {:induction false} SameEntries(c: Tuple, d: Tuple, r: nat)
    requires forall j: nat :: j < r ==> (j in c <==> j in d)
    ensures Entries(c, r) == Entries(d, r)
  {
    if r > 0 { SameEntries(c, d, r - 1); }
  }

  lemma {:induction false} FanInSumStep(codes: seq<Tuple>, n: nat, r: nat)
    requires 0 < n <= |codes|
    ensures FanInSum(codes, n, r) == FanInSum(codes, n - 1, r) + Entries(codes[n - 1], r)
  {
    if r > 0 { FanInSumStep(codes, n, r - 1); }
  }

  lemma {:induction false} FanInSumZero(codes: seq<Tuple>, r: nat)
    ensures FanInSum(codes, 0, r) == 0
  {
    if r > 0 { FanInSumZero(codes, r - 1); }
  }

  /** Double counting: the fan-ins of all rows add up to the total weight. */
  lemma {:induction false} DoubleCounting(codes: seq<Tuple>, m: nat, n: nat)
    requires n <= |codes| && ValidCodes(codes, m)
    ensures FanInSum(codes, n, m) == Weight(codes[..n])
  {
    if n == 0 {
      FanInSumZero(codes, m);
    } else {
      DoubleCounting(codes, m, n - 1);
      FanInSumStep(codes, n, m);
      EntriesOfTuple(codes[n - 1], m);
      assert codes[..n][..n - 1] == codes[..n - 1];
    }
  }

  lemma {:induction false} WeightAtLeast(codes: seq<Tuple>, w: nat)
    requires forall i :: 0 <= i < |codes| ==> |codes[i]| >= w
    ensures Weight(codes) >= w * |codes|
  {
    if codes != [] {
      WeightAtLeast(codes[..|codes| - 1], w);
      assert w * |codes| == w * (|codes| - 1) + w;
    }
  }

  lemma {:induction false} WeightConcat(a: seq<Tuple>, b: seq<Tuple>)
    ensures Weight(a + b) == Weight(a) + Weight(b)
  {
    if b == [] {
      assert a + b == a;
    } else {
      WeightConcat(a, b[..|b| - 1]);
      assert (a + b)[..|a + b| - 1] == a + b[..|b| - 1];
    }
  }

  /** The tuples of weight exactly s, and the others, in order. */
  function Pick(codes: seq<Tuple>, s: nat, exact: bool): seq<Tuple> {
    if codes == [] then []
    else
      var c := codes[|codes| - 1];
      Pick(codes[..|codes| - 1], s, exact) + (if (|c| == s) == exact then [c] else [])
  }

  lemma {:induction false} PickSpec(codes: seq<Tuple>, s: nat, exact: bool)
    requires Distinct(codes)
    ensures Distinct(Pick(codes, s, exact))
    ensures forall c :: c in Pick(codes, s, exact) ==> c in codes && (|c| == s) == exact
  {
    if codes != [] {
      var t, c := codes[..|codes| - 1], codes[|codes| - 1];
      PickSpec(t, s, exact);
      assert c !in t;
      assert codes == t + [c];
    }
  }

  lemma {:induction false} PickCounts(codes: seq<Tuple>, s: nat)
    ensures |Pick(codes, s, true)| + |Pick(codes, s, false)| == |codes|
    ensures Weight(codes) == s * |Pick(codes, s, true)| + Weight(Pick(codes, s, false))
  {
    if codes != [] {
      var t, c := codes[..|codes| - 1], codes[|codes| - 1];
      PickCounts(t, s);
      if |c| == s {
        assert s * (|Pick(t, s, true)| + 1) == s * |Pick(t, s, true)| + s;
        assert Pick(codes, s, false) == Pick(t, s, false);
      } else {
        WeightConcat(Pick(t, s, false), [c]);
        assert Weight([c]) == |c| by { assert Weight([c][..0]) == 0; }
      }
    }
  }

  lemma {:induction false} DistinctInto<T>(a: seq<T>, b: seq<T>)
    requires Distinct(a) && forall x :: x in a ==> x in b
    ensures |a| <= |b|
  {
    if a != [] {
      var n := |a| - 1;
      var x := a[n];
      assert x in b;
      var i :| 0 <= i < |b| && b[i] == x;
      var b' := b[..i] + b[i + 1..];
      forall y | y in a[..n] ensures y in b' {
        var p :| 0 <= p < n && a[p] == y;
        assert y != x && y in b;
        var q :| 0 <= q < |b| && b[q] == y;
        assert q < i ==> b'[q] == y;
        assert q > i ==> b'[q - 1] == y;
      }
      DistinctInto(a[..n], b');
    }
  }

  /** At most C(m,s) distinct columns have weight s. */
  lemma LayerSize(codes: seq<Tuple>, m: nat, s: nat)
    requires Layer(codes, m, s)
    ensures |codes| <= Binom(m, s)
  {
    forall c | c in codes ensures c in Comb(0, m, s) {
      var i :| 0 <= i < |codes| && codes[i] == c;
      assert ValidTuple(codes[i], m);
      CombComplete(0, m, c);
    }
    DistinctInto(codes, Comb(0, m, s));
    CombCount(0, m, s);
  }

  /** Splitting off the columns of weight s: at most C(m,s) of them, the others at least two heavier. */
  lemma SplitLayer(codes: seq<Tuple>, s: nat, m: nat) returns (layer: nat, rest: seq<Tuple>)
    requires s % 2 == 1 && Distinct(codes) && ValidCodes(codes, m)
    requires forall i :: 0 <= i < |codes| ==> |codes[i]| >= s && |codes[i]| % 2 == 1
    ensures layer <= Binom(m, s) && layer + |rest| == |codes|
    ensures Weight(codes) == s * layer + Weight(rest)
    ensures Distinct(rest) && ValidCodes(rest, m)
    ensures forall i :: 0 <= i < |rest| ==> |rest[i]| >= s + 2 && |rest[i]| % 2 == 1
  {
    hide Weight, Pick;
    var picked := Pick(codes, s, true);
    layer, rest := |picked|, Pick(codes, s, false);
    PickSpec(codes, s, true);
    PickSpec(codes, s, false);
    PickCounts(codes, s);
    forall i | 0 <= i < |picked| ensures ValidTuple(picked[i], m) && |picked[i]| == s {
      assert picked[i] in codes;
    }
    LayerSize(picked, m, s);
    forall i | 0 <= i < |rest| ensures ValidTuple(rest[i], m) && |rest[i]| >= s + 2 && |rest[i]| % 2 == 1 {
      assert rest[i] in codes;
    }
  }

  /** Any distinct odd columns of weight s or more weigh at least as much as the lightest choice. */
  lemma {:induction false} LightestIsLeast(codes: seq<Tuple>, s: nat, m: nat)
    requires s % 2 == 1 && Distinct(codes) && ValidCodes(codes, m)
    requires forall i :: 0 <= i < |codes| ==> |codes[i]| >= s && |codes[i]| % 2 == 1
    ensures Weight(codes) >= Lightest(|codes|, s, m)
    decreases m + 2 - s
  {
    if s <= m {
      var layer, rest := SplitLayer(codes, s, m);
      var b := Binom(m, s);
      if b <= |codes| {
        var n := |codes| - b;
        LightestIsLeast(rest[..n], s + 2, m);
        HeavierRest(rest, n, layer, b, s);
      } else {
        HeavierRest(rest, 0, layer, |codes|, s);
      }
    }
  }

  /** The weight of one layer and of the tuples beyond the first n. */
  lemma HeavierRest(rest: seq<Tuple>, n: nat, layer: nat, b: nat, s: nat)
    requires n <= |rest| && layer + (|rest| - n) == b
    requires forall i :: 0 <= i < |rest| ==> |rest[i]| >= s
    ensures s * layer + Weight(rest) >= b * s + Weight(rest[..n])
  {
    assert rest == rest[..n] + rest[n..];
    WeightConcat(rest[..n], rest[n..]);
    WeightAtLeast(rest[n..], s);
    assert s * layer + s * (|rest| - n) == s * b == b * s;
  }

  lemma {:induction false} FanInSumBound(codes: seq<Tuple>, r: nat, f: nat)
    requires forall j :: 0 <= j < r ==> FanIn(codes, j) <= f
    ensures FanInSum(codes, |codes|, r) <= r * f
  {
    if r > 0 {
      FanInSumBound(codes, r - 1, f);
      assert r * f == (r - 1) * f + f;
      assert FanIn(codes, r - 1) <= f;
    }
  }

  lemma {:induction false} CeilDivLeast(a: nat, m: nat, f: nat)
    requires m > 0 && a <= m * f
    ensures CeilDiv(a, m) <= f
  {
    if a > m {
      assert m * f == m * (f - 1) + m;
      CeilDivLeast(a - m, m, f - 1);
    } else if f == 0 {
      assert a == 0;
    }
  }

  /** Main theorem: no choice of k distinct odd-weight columns of weight at least three has a smaller maximum
      fan-in than `ideal_fanin(k, m)`. */
  lemma IdealIsOptimal(k: nat, m: nat, codes: seq<Tuple>, f: nat)
    requires m > 0 && HsiaoMatrix(k, m, codes)
    requires forall j :: 0 <= j < m ==> FanIn(codes, j) <= f
    ensures Ideal(k, 3, m) <= f
  {
    LightestIsLeast(codes, 3, m);
    assert codes[..|codes|] == codes;
    DoubleCounting(codes, m, |codes|);
    FanInSumBound(codes, m, f);
    IdealIsCeiling(k, 3, m);
    CeilDivLeast(Lightest(k, 3, m), m, f);
  }
}
