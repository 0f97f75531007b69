/** The two further assertions for inverted codes: all-zero data does not encode to all zeros, nor all-one data to all
    ones. */
module SecdedInverted {
  import opened Wrappers
  import opened Bits
  import opened SecdedCode
  import opened SecdedTheorem
  import opened HammingCode
  import opened SecdedSoftware
  import opened Combinations
  import opened HsiaoCode

  function AllOnes(n: nat): (w: Word)
    ensures |w| == n
  {
    seq(n, _ => true)
  }

  predicate ZerosCheck(k: nat, m: nat, codes: seq<Tuple>) {
    Encode(k, m, codes, true, Zeros(k)) != Zeros(k + m)
  }

  predicate OnesCheck(k: nat, m: nat, codes: seq<Tuple>) {
    Encode(k, m, codes, true, AllOnes(k)) != AllOnes(k + m)
  }

  /** Every assertion of the generated formal check for a code of this kind. */
  ghost predicate AllAssertions(k: nat, m: nat, codes: seq<Tuple>, kind: Kind)
    requires k <= |codes| && m > 0
  {
    Secded(k, m, codes, kind) && (kind.Inverted() ==> ZerosCheck(k, m, codes) && OnesCheck(k, m, codes))
  }

  // ---- all zeros ----

  lemma {:induction false} ZerosStayZero(k: nat, m: nat, masks: seq<nat>, j: nat)
    requires j <= |masks| == m
    ensures AssignParity(Zeros(k + m), k, masks, j) == Zeros(k + m)
    decreases m - j
  {
    if j < m {
      ParityNone(Zeros(k + m), masks[j]);
      assert Zeros(k + m)[k + j := false] == Zeros(k + m);
      ZerosStayZero(k, m, masks, j + 1);
    }
  }

  /** All-zero data is inverted away from all zeros if and only if there is an odd parity bit to invert. */
  lemma ZerosCheckHolds(k: nat, m: nat, codes: seq<Tuple>)
    ensures ZerosCheck(k, m, codes) <==> m >= 2
  {
    var w := Encode(k, m, codes, true, Zeros(k));
    assert Zeros(k) + Zeros(m) == Zeros(k + m);
    ZerosStayZero(k, m, EncMasks(m, codes), 0);
    if m >= 2 {
      HwInversion(k, m, codes, true, Zeros(k), 1);
      assert w[k + 1];
    } else {
      assert InvMask(0) == 0 && InvMask(1) == 0;
      forall i | 0 <= i < k + m ensures !w[i] { HighBits(0, 0, i); }
      assert w == Zeros(k + m);
    }
  }

  // ---- all ones ----

  lemma {:induction false} OnesParity(codes: seq<Tuple>, n: nat, j: nat)
    requires n <= |codes|
    ensures Parity(AllOnes(n), Mask(codes, j)) == (FanInOf(codes, n, j) % 2 == 1)
  {
    if n > 0 {
      assert AllOnes(n)[..n - 1] == AllOnes(n - 1);
      OnesParity(codes, n - 1, j);
      MaskBit(codes, j, n - 1);
    }
  }

  /** A check bit that reads only data says whether its fan-in is odd. */
  lemma OnesCheckBit(k: nat, m: nat, codes: seq<Tuple>, j: nat)
    requires k <= |codes| && Causal(k, EncMasks(m, codes)) && j < m && Mask(codes, j) < Pow2(k)
    ensures Encode(k, m, codes, true, AllOnes(k))[k + j] == ((FanInOf(codes, k, j) % 2 == 1) != (j % 2 == 1))
  {
    var plain, mask := Encode(k, m, codes, false, AllOnes(k)), Mask(codes, j);
    HwEncodeBits(k, m, codes, true, AllOnes(k));
    forall i | 0 <= i < k ensures plain[i] { assert plain[..k][i] == plain[i]; }
    forall i | k <= i < k + m ensures !Bit(mask, i) { HighBits(mask, k, i); }
    ParityAgree(AllOnes(k), plain, mask, mask);
    OnesParity(codes, k, j);
  }

  lemma DataOnlyIsCausal(k: nat, m: nat, codes: seq<Tuple>)
    requires |codes| == k
    ensures Causal(k, EncMasks(m, codes)) && forall j :: 0 <= j < m ==> Mask(codes, j) < Pow2(k)
  {
    forall j | 0 <= j < m ensures Mask(codes, j) < Pow2(k) <= Pow2(k + j) {
      MaskBound(codes, j);
      Pow2Monotone(k, k + j);
    }
  }

  /** On all-one data the inverted check bit of the row is one. */
  predicate RowGivesOne(codes: seq<Tuple>, j: nat) {
    (FanIn(codes, j) % 2 == 1) == (j % 2 == 0)
  }

  /** For a matrix over data alone, all-one data encodes to all ones exactly when every even row has odd fan-in and
      every odd row even fan-in. */
  lemma OnesCheckByFanIn(k: nat, m: nat, codes: seq<Tuple>)
    requires |codes| == k
    ensures OnesCheck(k, m, codes) <==> exists j: nat :: j < m && !RowGivesOne(codes, j)
  {
    var w := Encode(k, m, codes, true, AllOnes(k));
    DataOnlyIsCausal(k, m, codes);
    EncodeKeepsData(k, m, codes, true, AllOnes(k));
    forall i | 0 <= i < k ensures w[i] { assert w[..k][i] == w[i]; }
    forall j: nat | j < m ensures w[k + j] == RowGivesOne(codes, j) { OnesCheckBit(k, m, codes, j); }
    if j: nat :| j < m && !RowGivesOne(codes, j) {
      assert !w[k + j];
    } else {
      forall i | 0 <= i < k + m ensures w[i] {
        if i >= k {
          var j: nat := i - k;
          assert RowGivesOne(codes, j);
        }
      }
      assert w == AllOnes(k + m);
    }
  }

  /** A Hsiao matrix meets every assertion, and in the inverted kind does so if and only if some row's fan-in has the
      parity of its index. */
  lemma HsiaoAssertions(k: nat, m: nat, codes: seq<Tuple>, kind: Kind)
    requires m > 0 && HsiaoMatrix(k, m, codes) && !kind.IsHamming() && k > 0
    ensures AllAssertions(k, m, codes, kind) <==>
              (kind.Inverted() ==> exists j: nat :: j < m && !RowGivesOne(codes, j))
  {
    HsiaoSecded(k, m, codes, kind);
    OnesCheckByFanIn(k, m, codes);
    ZerosCheckHolds(k, m, codes);
    HsiaoNeedsRows(k, m, codes);
  }

  lemma HsiaoNeedsRows(k: nat, m: nat, codes: seq<Tuple>)
    requires HsiaoMatrix(k, m, codes) && k > 0
    ensures m >= 3
  {
    var c := codes[0];
    assert c[0] < c[1] < c[2] && c[2] in c;
  }

  /** Seven columns for six rows that the construction can pick. */
  function SevenColumns(): seq<Tuple> {
    [[0, 1, 2], [0, 1, 3], [0, 1, 4], [1, 3, 5], [2, 3, 5], [2, 4, 5], [3, 4, 5]]
  }

  /** The last assertion does not hold of every matrix the construction can pick: these columns are distinct, of
      weight three and within the ideal fan-in, and all-one data encodes to all ones. */
  lemma InvertedHsiaoCanFail()
    ensures HsiaoMatrix(7, 6, SevenColumns())
    ensures forall j :: 0 <= j < 6 ==> FanIn(SevenColumns(), j) <= Ideal(7, 3, 6)
    ensures !OnesCheck(7, 6, SevenColumns())
  {
    hide HsiaoMatrix, Ideal;
    var cs := SevenColumns();
    SevenIsMatrix();
    SevenIdeal();
    forall j | 0 <= j < 6 ensures FanIn(cs, j) <= 4 && RowGivesOne(cs, j) { SevenFanIns(j); }
    OnesCheckByFanIn(7, 6, cs);
  }

  lemma SevenIsMatrix()
    ensures HsiaoMatrix(7, 6, SevenColumns())
  {
  }

  lemma SevenIdeal()
    ensures Ideal(7, 3, 6) == 4
  {
    assert Binom(6, 3) == 20;
    assert CeilDiv(21, 6) == 4;
  }

  lemma SevenFanIns(j: nat)
    requires j < 6
    ensures FanIn(SevenColumns(), j) == [3, 4, 3, 4, 3, 4][j]
  {
    var cs := SevenColumns();
    assert FanInOf(cs, 1, j) == FanInOf(cs, 0, j) + if j in cs[0] then 1 else 0;
    assert FanInOf(cs, 2, j) == FanInOf(cs, 1, j) + if j in cs[1] then 1 else 0;
    assert FanInOf(cs, 3, j) == FanInOf(cs, 2, j) + if j in cs[2] then 1 else 0;
    assert FanInOf(cs, 4, j) == FanInOf(cs, 3, j) + if j in cs[3] then 1 else 0;
    assert FanInOf(cs, 5, j) == FanInOf(cs, 4, j) + if j in cs[4] then 1 else 0;
    assert FanInOf(cs, 6, j) == FanInOf(cs, 5, j) + if j in cs[5] then 1 else 0;
    assert FanInOf(cs, 7, j) == FanInOf(cs, 6, j) + if j in cs[6] then 1 else 0;
  }

  // ---- Hamming ----

  /** The parity of the number of positions with bit j set. */
  function PositionParity(ps: seq<nat>, n: nat, j: nat): bool
    requires n <= |ps|
  {
    if n == 0 then false else PositionParity(ps, n - 1, j) != Bit(ps[n - 1], j)
  }

  lemma {:induction false} PositionParityPrefix(ps: seq<nat>, more: seq<nat>, n: nat, j: nat)
    requires n <= |ps| <= |more| && ps == more[..|ps|]
    ensures PositionParity(ps, n, j) == PositionParity(more, n, j)
  {
    if n > 0 { PositionParityPrefix(ps, more, n - 1, j); }
  }

  /** A power of two from 4 on has neither bit 0 nor bit 1. */
  lemma PowerLowBits(b: nat)
    requires b >= 4 && BitAnd(b, b - 1) == 0
    ensures !Bit(b, 0) && !Bit(b, 1)
  {
    PowerOfTwoTest(b);
    var p: nat :| b == Pow2(p);
    assert p >= 2;
    BitOfPow2(p, 0);
    BitOfPow2(p, 1);
  }

  lemma LowBits01(b: nat)
    ensures Bit(b, 0) == (b % 2 == 1) && Bit(b, 1) == (b % 4 >= 2)
  {
    assert Bit(b, 1) == Bit(b / 2, 0) == ((b / 2) % 2 == 1);
    hide Bit;
    TwoBits(b);
  }

  lemma TwoBits(b: nat)
    ensures b % 4 == 2 * ((b / 2) % 2) + b % 2
  {
  }

  /** How many data positions have bit 0, or bit 1, is even or odd by the total modulo 4. */
  lemma {:induction false} LowRows(total: nat)
    requires total >= 4
    ensures var ps := DataPositions(total);
            && PositionParity(ps, |ps|, 0) == (total % 4 == 0 || total % 4 == 1)
            && PositionParity(ps, |ps|, 1) == (total % 4 != 3)
  {
    hide PositionParity, Bit, BitAnd;
    var b: nat := total - 1;
    LowBits01(b);
    ModuloFour(b);
    if total == 4 {
      FirstPositions();
    } else {
      var before := DataPositions(b);
      LowRows(b);
      if BitAnd(b, b - 1) != 0 {
        assert DataPositions(total) == before + [b];
        PositionParityMore(before, b, 0);
        PositionParityMore(before, b, 1);
      } else {
        PowerLowBits(b);
        assert DataPositions(total) == before;
      }
    }
  }

  lemma ModuloFour(b: nat)
    ensures (b + 1) % 4 == if b % 4 == 3 then 0 else b % 4 + 1
    ensures b % 2 == if b % 4 >= 2 then b % 4 - 2 else b % 4
  {
  }

  lemma PositionParityMore(ps: seq<nat>, b: nat, j: nat)
    ensures PositionParity(ps + [b], |ps| + 1, j) == (PositionParity(ps, |ps|, j) != Bit(b, j))
  {
    PositionParityPrefix(ps, ps + [b], |ps|, j);
  }

  lemma FirstPositions()
    ensures DataPositions(4) == [3]
    ensures PositionParity([3], 1, 0) && PositionParity([3], 1, 1)
  {
    assert BitAnd(1, 0) == 0 && BitAnd(2, 1) == 0 && BitAnd(3, 2) != 0;
    assert DataPositions(1) == [] && DataPositions(2) == [] && DataPositions(3) == [];
    LowBits01(3);
    assert PositionParity([3], 0, 0) == false && PositionParity([3], 0, 1) == false;
  }

  lemma {:induction false} RowParityOf(codes: seq<Tuple>, ps: seq<nat>, n: nat, j: nat)
    requires n <= |codes| && n <= |ps| && forall i :: 0 <= i < n ==> (j in codes[i] <==> Bit(ps[i], j))
    ensures (FanInOf(codes, n, j) % 2 == 1) == PositionParity(ps, n, j)
  {
    if n > 0 {
      hide Bit;
      RowParityOf(codes, ps, n - 1, j);
    }
  }

  lemma RowParity(k: nat, m: nat, n: nat, j: nat)
    requires ExactLayout(k, m) && j < m - 1 && n <= k
    requires n <= |DataPositions(k + m)| && n <= |HammingCodes(k, m)|
    ensures (FanInOf(HammingCodes(k, m), n, j) % 2 == 1) == PositionParity(DataPositions(k + m), n, j)
  {
    hide HammingCodes, DataPositions, PositionParity, Bit, Pow2;
    forall i | 0 <= i < n ensures j in HammingCodes(k, m)[i] <==> Bit(DataPositions(k + m)[i], j) {
      HammingTuple(k, m, i);
    }
    RowParityOf(HammingCodes(k, m), DataPositions(k + m), n, j);
  }

  /** All-one data never encodes to all ones in an inverted Hamming code of exact layout: the two lowest check bits
      are never both one. */
  lemma HammingOnesCheck(k: nat, m: nat)
    requires ExactLayout(k, m) && k >= 1
    ensures m >= 3 && OnesCheck(k, m, HammingCodes(k, m))
  {
    hide HammingCodes, DataPositions, Encode;
    var codes, w := HammingCodes(k, m), Encode(k, m, HammingCodes(k, m), true, AllOnes(k));
    LayoutCount(k, m);
    HammingCodesValid(k, m);
    HammingCausal(k, m);
    assert m >= 3 by { assert Pow2(1) == 2; }
    LowRows(k + m);
    RowParity(k, m, k, 0);
    RowParity(k, m, k, 1);
    OnesCheckBit(k, m, codes, 0);
    OnesCheckBit(k, m, codes, 1);
    assert !w[k] || !w[k + 1];
    assert AllOnes(k + m)[k] && AllOnes(k + m)[k + 1];
  }

  /** Among the admitted sizes, a Hamming code meets every assertion of its kind if and only if its layout is exact. */
  lemma HammingAssertions(k: nat, m: nat, kind: Kind)
    requires Admitted(k, m) && kind.IsHamming()
    ensures k <= |HammingCodes(k, m)|
    ensures AllAssertions(k, m, HammingCodes(k, m), kind) <==> Pow2(m - 2) <= k + m - 1
  {
    hide HammingCodes;
    HammingSecded(k, m, kind);
    ZerosCheckHolds(k, m, HammingCodes(k, m));
    if Pow2(m - 2) <= k + m - 1 {
      assert m >= 3 by { assert Pow2(1) == 2; }
      HammingOnesCheck(k, m);
    }
  }
}
