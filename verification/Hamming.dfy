/** The Hamming code matrix, and exactly when its layout gives a SECDED code. */
module HammingCode {
  import opened Bits
  import opened SecdedCode
  import opened SecdedTheorem

  /** The positions 1 <= b < total with `b & (b - 1)` nonzero, in order. */
  function DataPositions(total: nat): seq<nat> {
    if total <= 1 then []
    else DataPositions(total - 1) + (if BitAnd(total - 1, total - 2) != 0 then [total - 1] else [])
  }

  /** `tuple(p for p in range(last) if (b >> p) & 1)` */
  function SetPositions(b: nat, last: nat): Tuple {
    if last == 0 then [] else SetPositions(b, last - 1) + (if Bit(b, last - 1) then [last - 1] else [])
  }

  /** The tuples `_hamming_code` builds: one per data position, then one per parity bit but the last. */
  function HammingCodes(k: nat, m: nat): seq<Tuple>
    requires m > 0
  {
    var positions := DataPositions(k + m);
    seq(|positions|, i requires 0 <= i < |positions| => SetPositions(positions[i], m - 1) + [m - 1])
    + seq(m - 1, _ => [m - 1])
  }

  /** The layout has exactly k data columns. */
  predicate ExactLayout(k: nat, m: nat) {
    m >= 2 && Pow2(m - 2) <= k + m - 1 < Pow2(m - 1)
  }

  // ---- powers of two ----

  lemma {:induction false} AndSelf(a: nat)
    ensures BitAnd(a, a) == 0 <==> a == 0
  {
    if a > 1 { AndSelf(a / 2); }
  }

  /** `b & (b - 1)` vanishes exactly on the powers of two. */
  lemma {:induction false} PowerOfTwoTest(b: nat)
    requires b > 0
    ensures BitAnd(b, b - 1) == 0 <==> exists p: nat :: b == Pow2(p)
  {
    if b == 1 {
      assert b == Pow2(0);
    } else if b % 2 == 0 {
      PowerOfTwoTest(b / 2);
      assert (b - 1) / 2 == b / 2 - 1;
      assert BitAnd(b, b - 1) == 2 * BitAnd(b / 2, b / 2 - 1);
      hide BitAnd;
      HalfPower(b);
    } else {
      AndSelf(b / 2);
      assert (b - 1) / 2 == b / 2;
      assert BitAnd(b, b - 1) == 2 * BitAnd(b / 2, b / 2);
      hide BitAnd;
      forall p: nat ensures b != Pow2(p) { OddPower(p); }
    }
  }

  lemma OddPower(p: nat)
    ensures Pow2(p) % 2 == 1 ==> Pow2(p) == 1
  {
    if p > 0 { assert Pow2(p) == 2 * Pow2(p - 1); }
  }

  lemma HalfPower(b: nat)
    requires b > 0 && b % 2 == 0
    ensures (exists p: nat :: b == Pow2(p)) <==> (exists p: nat :: b / 2 == Pow2(p))
  {
    if p: nat :| b / 2 == Pow2(p) { assert b == Pow2(p + 1); }
    if p: nat :| b == Pow2(p) {
      assert p > 0;
      assert b / 2 == Pow2(p - 1);
    }
  }

  /** Between two consecutive powers of two lies no third. */
  lemma NotAPower(b: nat, p: nat)
    requires Pow2(p) < b < Pow2(p + 1)
    ensures BitAnd(b, b - 1) != 0
  {
    PowerOfTwoTest(b);
    if q: nat :| b == Pow2(q) {
      if q <= p { Pow2Monotone(q, p); } else { Pow2Monotone(p + 1, q); }
      assert false;
    }
  }

  // ---- the layout ----

  /** The data positions are exactly the numbers below `total` that are not powers of two, in order. */
  lemma {:induction false} DataPositionsSpec(total: nat)
    ensures ValidTuple(DataPositions(total), total)
    ensures forall b: nat :: b in DataPositions(total) <==> 0 < b < total && BitAnd(b, b - 1) != 0
  {
    hide BitAnd;
    if total > 1 {
      var ps := DataPositions(total - 1);
      DataPositionsSpec(total - 1);
      AppendToTuple(ps, total - 1);
      assert DataPositions(total) == if BitAnd(total - 1, total - 2) != 0 then ps + [total - 1] else ps;
    }
  }

  /** Up to position t there are as many parity positions as powers of two. */
  lemma {:induction false} DataPositionsCount(t: nat, p: nat)
    requires Pow2(p) <= t < Pow2(p + 1)
    ensures |DataPositions(t + 1)| == t - (p + 1)
    decreases t
  {
    PowerOfTwoTest(t);
    if t == Pow2(p) {
      if p == 0 {
        assert t == 1 && DataPositions(1) == [];
        assert DataPositions(2) == DataPositions(1);
      } else {
        assert Pow2(p) == 2 * Pow2(p - 1);
        DataPositionsCount(t - 1, p - 1);
      }
    } else {
      NotAPower(t, p);
      DataPositionsCount(t - 1, p);
    }
  }

  /** Every positive number lies between two consecutive powers of two. */
  lemma {:induction false} Log2(t: nat) returns (p: nat)
    requires t > 0
    ensures Pow2(p) <= t < Pow2(p + 1)
  {
    if t == 1 {
      p := 0;
    } else {
      p := Log2(t / 2);
      p := p + 1;
    }
  }

  /** Number of data positions: exactly k when the layout is exact, more than k when m is too large. */
  lemma LayoutCount(k: nat, m: nat)
    requires m >= 2 && k + m - 1 < Pow2(m - 1)
    ensures |DataPositions(k + m)| >= k
    ensures |DataPositions(k + m)| == k <==> ExactLayout(k, m)
    ensures |DataPositions(k + m)| - k <= m - 2
  {
    var p := Log2(k + m - 1);
    DataPositionsCount(k + m - 1, p);
    if p >= m - 1 { Pow2Monotone(m - 1, p); }
    if p < m - 2 { Pow2Monotone(p + 1, m - 2); }
  }

  // ---- the tuples ----

  lemma {:induction false} SetPositionsSpec(b: nat, last: nat)
    ensures ValidTuple(SetPositions(b, last), last)
    ensures forall j: nat :: j in SetPositions(b, last) <==> j < last && Bit(b, j)
  {
    if last > 0 {
      SetPositionsSpec(b, last - 1);
      AppendToTuple(SetPositions(b, last - 1), last - 1);
    }
  }

  lemma HammingTuple(k: nat, m: nat, i: nat)
    requires m > 0 && i < |HammingCodes(k, m)|
    ensures var ps := DataPositions(k + m);
            var c := HammingCodes(k, m)[i];
            && ValidTuple(c, m)
            && (m - 1) in c
            && (forall j: nat :: j < m - 1 ==> (j in c <==> i < |ps| && Bit(ps[i], j)))
  {
    var ps := DataPositions(k + m);
    var c := HammingCodes(k, m)[i];
    if i < |ps| {
      SetPositionsSpec(ps[i], m - 1);
      AppendToTuple(SetPositions(ps[i], m - 1), m - 1);
      assert c == SetPositions(ps[i], m - 1) + [m - 1];
    } else {
      assert c == [m - 1];
    }
  }

  lemma HammingCodesValid(k: nat, m: nat)
    requires m > 0
    ensures |HammingCodes(k, m)| == |DataPositions(k + m)| + m - 1
    ensures ValidCodes(HammingCodes(k, m), m)
  {
    forall i | 0 <= i < |HammingCodes(k, m)| ensures ValidTuple(HammingCodes(k, m)[i], m) {
      HammingTuple(k, m, i);
    }
  }

  /** `_hamming_code`: the two comprehensions as one loop over positions and one repetition. */
  method MakeHammingCode(k: nat, m: nat) returns (codes: seq<Tuple>)
    requires m > 0
    ensures codes == HammingCodes(k, m)
  {
    var positions: seq<nat> := [];
    for b := 1 to k + m
      invariant positions == DataPositions(b)
    {
      if BitAnd(b, b - 1) != 0 {
        positions := positions + [b];
      }
    }
    codes := seq(|positions|, i requires 0 <= i < |positions| => SetPositions(positions[i], m - 1) + [m - 1]);
    codes := codes + seq(m - 1, _ => [m - 1]);
  }

  // ---- SECDED for the exact layout ----

  /** The number whose bits are column p without its last row: the data position, a power of two, or 0. */
  function Label(k: nat, m: nat, p: nat): nat
    requires p < k + m && |DataPositions(k + m)| == k
  {
    if p < k then DataPositions(k + m)[p] else if p < k + m - 1 then Pow2(p - k) else 0
  }

  /** A parity row but the last only reads the bits at data positions. */
  lemma HammingDataRow(k: nat, m: nat, j: nat)
    requires m > 0 && j < m - 1
    ensures Mask(HammingCodes(k, m), j) < Pow2(|DataPositions(k + m)|)
  {
    var codes, data := HammingCodes(k, m), |DataPositions(k + m)|;
    forall i | data <= i < |codes| ensures j !in codes[i] { HammingTuple(k, m, i); }
    MaskPrefix(codes, j, data);
    MaskBound(codes[..data], j);
  }

  lemma ExactLayoutMasks(k: nat, m: nat, j: nat)
    requires ExactLayout(k, m) && j < m
    ensures Mask(HammingCodes(k, m), j) < Pow2(k + j)
  {
    LayoutCount(k, m);
    HammingCodesValid(k, m);
    if j < m - 1 {
      HammingDataRow(k, m, j);
      Pow2Monotone(k, k + j);
    } else {
      MaskBound(HammingCodes(k, m), j);
    }
  }

  lemma {:induction false} BitOfPow2(n: nat, i: nat)
    ensures Bit(Pow2(n), i) == (i == n)
  {
    AddPow2(0, n, i);
    HighBits(0, 0, i);
  }

  /** Column p: the bits of its label, and the last row, which covers every position. */
  lemma HammingColumn(k: nat, m: nat, p: nat, j: nat)
    requires ExactLayout(k, m) && j < m && p < k + m
    requires |DataPositions(k + m)| == k
    ensures Column(k, m, HammingCodes(k, m), p)[j] == (j == m - 1 || Bit(Label(k, m, p), j))
  {
    hide Mask, HammingCodes, ExactLayout;
    var codes := HammingCodes(k, m);
    HammingCodesValid(k, m);
    ExactLayoutMasks(k, m, j);
    AddPow2(Mask(codes, j), k + j, p);
    MaskBit(codes, j, p);
    if p < |codes| { HammingTuple(k, m, p); }
    if k <= p < k + m - 1 { BitOfPow2(p - k, j); }
    HighBits(0, 0, j);
  }

  lemma LabelBound(k: nat, m: nat, p: nat)
    requires ExactLayout(k, m) && p < k + m
    requires |DataPositions(k + m)| == k
    ensures Label(k, m, p) < Pow2(m - 1)
  {
    if p < k {
      DataPositionsSpec(k + m);
      assert DataPositions(k + m)[p] in DataPositions(k + m);
    } else if p < k + m - 1 {
      Pow2Monotone(p - k + 1, m - 1);
    }
  }

  lemma LabelsDiffer(k: nat, m: nat, p: nat, q: nat)
    requires p < q < k + m
    requires |DataPositions(k + m)| == k
    ensures Label(k, m, p) != Label(k, m, q)
  {
    if p < k {
      DataPositionsSpec(k + m);
      var ps := DataPositions(k + m);
      assert ps[p] in ps;
      if q < k {
        assert Increasing(ps);
      } else if q < k + m - 1 {
        PowerOfTwoTest(ps[p]);
        assert ps[p] != Pow2(q - k);
      }
    } else if q < k + m - 1 {
      Pow2Monotone(p - k, q - k);
    }
  }

  lemma HammingIsGood(k: nat, m: nat)
    requires ExactLayout(k, m)
    ensures GoodMatrix(k, m, HammingCodes(k, m), true)
  {
    hide Mask, HammingCodes, DataPositions;
    var codes := HammingCodes(k, m);
    LayoutCount(k, m);
    HammingCodesValid(k, m);
    forall j | 0 <= j < m ensures Mask(codes, j) < Pow2(k + j) { ExactLayoutMasks(k, m, j); }
    forall p | 0 <= p < k ensures Column(k, m, codes, p) == Indicator(codes[p], m) {
      HammingTuple(k, m, p);
      forall j | 0 <= j < m ensures Column(k, m, codes, p)[j] == Indicator(codes[p], m)[j] {
        HammingColumn(k, m, p, j);
      }
    }
    forall p, q | 0 <= p < q < k + m ensures Column(k, m, codes, p) != Column(k, m, codes, q) {
      LabelsDiffer(k, m, p, q);
      LabelBound(k, m, p);
      LabelBound(k, m, q);
      var j := DifferingBit(Label(k, m, p), Label(k, m, q), m - 1);
      HammingColumn(k, m, p, j);
      HammingColumn(k, m, q, j);
    }
    forall p | 0 <= p < k + m ensures Flag(true, Column(k, m, codes, p)) { HammingColumn(k, m, p, m - 1); }
  }

  // ---- a parity width above the exact layout ----

  lemma {:induction false} AllRowsMask(codes: seq<Tuple>, j: nat)
    requires forall i :: 0 <= i < |codes| ==> j in codes[i]
    ensures Mask(codes, j) == Pow2(|codes|) - 1
  {
    if codes != [] { AllRowsMask(codes[..|codes| - 1], j); }
  }

  /** The bit below the top one of 2^l - 1 + 2^n is lost to the carry when l > n. */
  lemma CarryClearsBit(l: nat, n: nat)
    requires l > n
    ensures !Bit(Pow2(l) - 1 + Pow2(n), n)
  {
    var q := Pow2(l - n - 1);
    Pow2Add(l - n - 1, n + 1);
    assert Pow2(l) == q * Pow2(n + 1);
    LowBits(Pow2(n) - 1, n + 1, q, n);
    HighBits(Pow2(n) - 1, n, n);
  }

  lemma SumFits(x: nat, a: nat, b: nat, n: nat)
    requires x < Pow2(a) && a <= n && b <= n
    ensures x + Pow2(b) < Pow2(n + 1)
  {
    Pow2Monotone(a, n);
    Pow2Monotone(b, n);
  }

  /** With spare parity bits, no decoder mask covers the last codeword bit. */
  lemma LastBitUncovered(k: nat, m: nat, j: nat)
    requires m >= 2 && k + m - 1 < Pow2(m - 2) && j < m
    ensures !Bit(DecMask(k, HammingCodes(k, m), j), k + m - 1)
  {
    hide HammingCodes, DataPositions, Mask, Bit, ValidTuple;
    var codes := HammingCodes(k, m);
    LayoutCount(k, m);
    HammingCodesValid(k, m);
    if j < m - 1 {
      HammingDataRow(k, m, j);
      SumFits(Mask(codes, j), |DataPositions(k + m)|, k + j, k + m - 2);
      HighBits(DecMask(k, codes, j), k + m - 1, k + m - 1);
    } else {
      forall i | 0 <= i < |codes| ensures j in codes[i] { HammingTuple(k, m, i); }
      AllRowsMask(codes, j);
      CarryClearsBit(|codes|, k + m - 1);
    }
  }

  /** A flip of the last codeword bit is then invisible: same syndrome as no error at all. */
  lemma LastFlipInvisible(k: nat, m: nat, inverted: bool, w: Word)
    requires m >= 2 && k + m - 1 < Pow2(m - 2) && |w| == k + m
    ensures Syndrome(k, m, HammingCodes(k, m), inverted, Xor(w, Unit(k + m, k + m - 1)))
         == Syndrome(k, m, HammingCodes(k, m), inverted, w)
  {
    var codes := HammingCodes(k, m);
    var u := Unit(k + m, k + m - 1);
    var mask := InvMask(m) * Pow2(k);
    assert XorMask(Xor(w, u), mask) == Xor(XorMask(w, mask), u);
    var v := if inverted then XorMask(w, mask) else w;
    forall j | 0 <= j < m ensures Parity(Xor(v, u), DecMask(k, codes, j)) == Parity(v, DecMask(k, codes, j)) {
      LastBitUncovered(k, m, j);
      ParityLinear(v, u, DecMask(k, codes, j));
      ParityOne(u, DecMask(k, codes, j), k + m - 1);
    }
  }

  lemma SpareParityIsNotSecded(k: nat, m: nat, kind: Kind)
    requires m >= 2 && k + m - 1 < Pow2(m - 2) && kind.IsHamming()
    requires k <= |HammingCodes(k, m)|
    ensures !Secded(k, m, HammingCodes(k, m), kind)
  {
    hide Encode, HammingCodes;
    var codes := HammingCodes(k, m);
    var n := k + m;
    var d, clean, u := Zeros(k), Zeros(n), Unit(n, n - 1);
    var c := Encode(k, m, codes, kind.Inverted(), d);
    LastFlipInvisible(k, m, kind.Inverted(), c);
    assert Xor(c, clean) == c;
    OnesOfZeros(n);
    assert u == Zeros(n)[n - 1 := true];
    OnesOfUnit(n, n - 1);
    assert Decode(k, m, codes, kind, Xor(c, u)).err0 == Decode(k, m, codes, kind, Xor(c, clean)).err0;
    assert !FpvAssertions(k, m, codes, kind, d, clean) || !FpvAssertions(k, m, codes, kind, d, u);
  }

  // ---- the parity width ----

  /** What `min_paritysize` returns: the least m whose 2^(m-1) covers k + m, or -1 above 502 data bits. */
  ghost predicate IsMinParity(k: nat, r: int) {
    if k > 502 then r == -1
    else 3 <= r <= 10 && Pow2(r - 1) >= k + r && (r > 3 ==> Pow2(r - 2) < k + r - 1)
  }

  method MinParitySize(k: nat) returns (r: int)
    ensures IsMinParity(k, r)
  {
    assert Pow2(2) == 4 && Pow2(3) == 8 && Pow2(4) == 16 && Pow2(5) == 32;
    assert Pow2(6) == 64 && Pow2(7) == 128 && Pow2(8) == 256 && Pow2(9) == 512;
    for m := 2 to 10
      invariant m > 2 ==> Pow2(m - 1) < k + m
    {
      if Pow2(m) >= k + m + 1 {
        return m + 1;
      }
    }
    return -1;
  }

  /** The minimal parity width always gives the exact layout. */
  lemma MinParityIsExact(k: nat, m: nat)
    requires k >= 1 && IsMinParity(k, m)
    ensures ExactLayout(k, m)
  {
    assert Pow2(1) == 2;
  }

  /** What the generator's argument check admits: the parity width is at least the minimal one. */
  predicate Admitted(k: nat, m: nat) {
    1 < k <= 120 && 1 < m <= 20 && k + m <= Pow2(m - 1)
  }

  lemma {:induction false} WiderStaysWide(k: nat, r: nat, m: nat)
    requires 2 <= r <= m && k + r <= Pow2(r - 1)
    ensures k + m <= Pow2(m - 1)
  {
    if r < m { WiderStaysWide(k, r, m - 1); }
  }

  /** `verify` compares m with the minimal width; that is the same as covering k + m. */
  lemma AdmittedIsAtLeastMinimal(k: nat, m: nat, r: int)
    requires 1 < k <= 120 && 1 < m <= 20 && IsMinParity(k, r)
    ensures m >= r <==> Admitted(k, m)
  {
    if m >= r {
      WiderStaysWide(k, r, m);
    } else if Admitted(k, m) {
      WiderStaysWide(k, m, r - 1);
      assert false;
    }
  }

  /** Main theorem: among the configurations the generator admits, a Hamming code is SECDED if and only
      if its layout is exact. */
  lemma HammingSecded(k: nat, m: nat, kind: Kind)
    requires Admitted(k, m) && kind.IsHamming()
    ensures k <= |HammingCodes(k, m)|
    ensures Secded(k, m, HammingCodes(k, m), kind) <==> Pow2(m - 2) <= k + m - 1
  {
    LayoutCount(k, m);
    HammingCodesValid(k, m);
    if ExactLayout(k, m) {
      HammingIsGood(k, m);
      GoodMatrixIsSecded(k, m, HammingCodes(k, m), kind);
    } else {
      SpareParityIsNotSecded(k, m, kind);
    }
  }

  /** For every data width, the minimal parity width gives a SECDED Hamming code. */
  lemma MinimalHammingSecded(k: nat, m: nat, kind: Kind)
    requires k >= 1 && IsMinParity(k, m) && kind.IsHamming()
    ensures k <= |HammingCodes(k, m)| && Secded(k, m, HammingCodes(k, m), kind)
  {
    MinParityIsExact(k, m);
    LayoutCount(k, m);
    HammingCodesValid(k, m);
    HammingIsGood(k, m);
    GoodMatrixIsSecded(k, m, HammingCodes(k, m), kind);
  }
}
