/** The round constants as numbers: the generator yields the table that the hardware uses. */
module KeccakTable {
  import opened Bits
  import opened Hexadecimal
  import opened Keccak

  // ---- a round constant as a number ----

  /** The first n of the seven bits, as a word. */
  function Built(round: nat, n: nat): (w: Word)
    requires n <= 7
    ensures |w| == 64
  {
    if n == 0 then Zeros(64)
    else
      PowBound(n - 1);
      Built(round, n - 1)[Pow2(n - 1) - 1 := Rc(n - 1 + 7 * round)]
  }

  /** The same as a number. */
  function Value(round: nat, n: nat): nat {
    if n == 0 then 0
    else Value(round, n - 1) + if Rc(n - 1 + 7 * round) then Pow2(Pow2(n - 1) - 1) else 0
  }

  lemma {:induction false} SetBit(w: Word, i: nat, b: bool)
    requires i < |w| && !w[i]
    ensures ToNat(w[i := b]) == ToNat(w) + if b then Pow2(i) else 0
  {
    var n := |w| - 1;
    if i < n {
      SetBit(w[..n], i, b);
      assert w[i := b][..n] == w[..n][i := b];
    } else {
      assert w[i := b][..n] == w[..n];
    }
  }

  lemma {:induction false} BuiltValue(round: nat, n: nat)
    requires n <= 7
    ensures Placed(Built(round, n), round, n) && ToNat(Built(round, n)) == Value(round, n)
  {
    hide Pow2, Rc, Placed, Position, ToNat;
    if n == 0 {
      NonePlaced(round);
      NothingSet(64);
    } else {
      BuiltValue(round, n - 1);
      PowBound(n - 1);
      PlaceOne(Built(round, n - 1), round, n - 1);
      Unset(Built(round, n - 1), round, n - 1);
      SetBit(Built(round, n - 1), Pow2(n - 1) - 1, Rc(n - 1 + 7 * round));
    }
  }

  lemma {:induction false} NothingSet(n: nat)
    ensures ToNat(Zeros(n)) == 0
  {
    if n > 0 {
      NothingSet(n - 1);
      assert Zeros(n)[..n - 1] == Zeros(n - 1);
    }
  }

  /** The next bit to place is still clear. */
  lemma Unset(c: Word, round: nat, j: nat)
    requires j < 7 && Placed(c, round, j)
    ensures |c| == 64 && 0 < Pow2(j) <= 64 && !c[Pow2(j) - 1]
  {
    hide Pow2, Rc;
    PowBound(j);
    forall k: nat | k < j ensures Pow2(k) < Pow2(j) { Positions(k, j); }
  }

  lemma PlacedUnique(c: Word, d: Word, round: nat)
    requires Placed(c, round, 7) && Placed(d, round, 7)
    ensures c == d
  {
    hide Pow2, Rc;
    forall i | 0 <= i < 64 ensures c[i] == d[i] {
      if Position(i, 7) { var j: nat :| j < 7 && i == Pow2(j) - 1; }
    }
  }

  lemma ConstantValue(c: Word, round: nat)
    requires IsRoundConstant(c, round)
    ensures ToNat(c) == Value(round, 7)
  {
    hide Placed, Built, Value, ToNat;
    BuiltValue(round, 7);
    PlacedUnique(c, Built(round, 7), round);
  }

  // ---- the register at each round ----

  function Seven(r: Reg): Reg {
    Reg((r.b1 != r.b3) != r.b4,
        (r.b2 != r.b4) != r.b5,
        (r.b3 != r.b5) != r.b6,
        (r.b4 != r.b6) != r.b7,
        (((r.b1 != r.b3) != r.b4) != r.b5) != r.b7,
        (((r.b1 != r.b2) != r.b3) != r.b5) != r.b6,
        ((r.b1 != r.b2) != r.b6) != r.b7,
        ((r.b0 != r.b2) != r.b3) != r.b7)
  }

  lemma SevenSteps(r: Reg)
    ensures Steps(r, 7) == Seven(r)
  {
    hide Five, Seven, Steps, StepReg;
    StepsAdd(r, 5, 2);
    FiveSteps(r);
    TwoSteps(Five(r));
    TwoAfterFive(r);
  }

  lemma TwoSteps(r: Reg)
    ensures Steps(r, 2) == StepReg(StepReg(r))
  {
    hide StepReg;
    assert Steps(StepReg(r), 1) == StepReg(StepReg(r)) by { OneRegStep(StepReg(r)); }
  }

  lemma TwoAfterFive(r: Reg)
    ensures StepReg(StepReg(Five(r))) == Seven(r)
  {
  }

  /** The register when a round begins. */
  function Row(i: nat): Reg {
    match i
    case 0 => Reg(true, false, false, false, false, false, false, false)
    case 1 => Reg(false, false, false, false, false, false, false, true)
    case 2 => Reg(false, false, false, true, true, false, true, true)
    case 3 => Reg(false, true, false, true, true, false, false, false)
    case 4 => Reg(true, true, true, true, true, false, true, true)
    case 5 => Reg(true, false, false, true, false, false, false, false)
    case 6 => Reg(true, false, true, false, true, true, false, false)
    case 7 => Reg(true, true, true, true, false, false, true, false)
    case 8 => Reg(false, true, false, true, false, false, true, true)
    case 9 => Reg(false, false, false, false, true, true, true, false)
    case 10 => Reg(true, false, false, false, false, false, true, false)
    case 11 => Reg(false, false, true, true, false, true, true, true)
    case 12 => Reg(true, false, true, false, true, false, true, true)
    case 13 => Reg(true, false, true, true, false, false, true, true)
    case 14 => Reg(true, true, false, false, false, true, true, false)
    case 15 => Reg(true, true, false, true, false, true, false, true)
    case 16 => Reg(false, true, false, true, false, true, false, true)
    case 17 => Reg(false, true, false, true, false, true, false, false)
    case 18 => Reg(false, true, false, false, true, true, true, true)
    case 19 => Reg(false, false, false, true, false, true, true, true)
    case 20 => Reg(true, true, true, false, true, true, false, false)
    case 21 => Reg(false, true, true, true, true, true, false, false)
    case 22 => Reg(true, true, false, true, false, false, false, false)
    case _ => Reg(false, false, true, false, false, false, true, false)
  }

  lemma RowStep(i: nat)
    requires i < 23
    ensures Seven(Row(i)) == Row(i + 1)
  {
    hide Seven, Row;
    if i < 4 { RowsTo4(i); } else if i < 8 { RowsTo8(i); } else if i < 12 { RowsTo12(i); }
    else if i < 16 { RowsTo16(i); } else if i < 20 { RowsTo20(i); } else { RowsTo23(i); }
  }

  lemma RowsTo4(i: nat)
    requires i < 4
    ensures Seven(Row(i)) == Row(i + 1)
  {
  }

  lemma RowsTo8(i: nat)
    requires 4 <= i < 8
    ensures Seven(Row(i)) == Row(i + 1)
  {
  }

  lemma RowsTo12(i: nat)
    requires 8 <= i < 12
    ensures Seven(Row(i)) == Row(i + 1)
  {
  }

  lemma RowsTo16(i: nat)
    requires 12 <= i < 16
    ensures Seven(Row(i)) == Row(i + 1)
  {
  }

  lemma RowsTo20(i: nat)
    requires 16 <= i < 20
    ensures Seven(Row(i)) == Row(i + 1)
  {
  }

  lemma RowsTo23(i: nat)
    requires 20 <= i < 23
    ensures Seven(Row(i)) == Row(i + 1)
  {
  }

  lemma FirstRow()
    ensures Steps(ToReg(INITIAL), 0) == Row(0)
  {
  }

  lemma {:induction false} RowReached(i: nat)
    requires i < 24
    ensures Steps(ToReg(INITIAL), 7 * i) == Row(i)
  {
    hide Seven, Row, Steps, ToReg;
    if i == 0 {
      FirstRow();
    } else {
      RowReached(i - 1);
      StepsAdd(ToReg(INITIAL), 7 * (i - 1), 7);
      SevenSteps(Row(i - 1));
      RowStep(i - 1);
    }
  }

  /** The first bit of the register during seven steps. */
  function Shown(r: Reg, j: nat): bool {
    match j
    case 0 => r.b0
    case 1 => r.b7
    case 2 => r.b6
    case 3 => r.b5 != r.b7
    case 4 => (r.b4 != r.b6) != r.b7
    case 5 => (r.b3 != r.b5) != r.b6
    case _ => (r.b2 != r.b4) != r.b5
  }

  lemma {:induction false} ShownAfter(r: Reg, j: nat)
    requires j < 7
    ensures Steps(r, j).b0 == Shown(r, j)
    decreases j
  {
    if j > 0 {
      ShownAfter(StepReg(r), j - 1);
      ShownLater(r, j - 1);
    }
  }

  lemma ShownLater(r: Reg, j: nat)
    requires j < 6
    ensures Shown(StepReg(r), j) == Shown(r, j + 1)
  {
  }

  lemma RcShown(i: nat, j: nat)
    requires i < 24 && j < 7
    ensures Rc(j + 7 * i) == Shown(Row(i), j)
  {
    hide Row, Steps, Shown, FipsRun;
    RunSteps(j + 7 * i);
    StepsAdd(ToReg(INITIAL), 7 * i, j);
    RowReached(i);
    ShownAfter(Row(i), j);
  }

  // ---- the table ----

  /** The round constants of the hardware. */
  const TABLE: seq<nat> := [
    0x0000_0000_0000_0001, 0x0000_0000_0000_8082, 0x8000_0000_0000_808a, 0x8000_0000_8000_8000,
    0x0000_0000_0000_808b, 0x0000_0000_8000_0001, 0x8000_0000_8000_8081, 0x8000_0000_0000_8009,
    0x0000_0000_0000_008a, 0x0000_0000_0000_0088, 0x0000_0000_8000_8009, 0x0000_0000_8000_000a,
    0x0000_0000_8000_808b, 0x8000_0000_0000_008b, 0x8000_0000_0000_8089, 0x8000_0000_0000_8003,
    0x8000_0000_0000_8002, 0x8000_0000_0000_0080, 0x0000_0000_0000_800a, 0x8000_0000_8000_000a,
    0x8000_0000_8000_8081, 0x8000_0000_0000_8080, 0x0000_0000_8000_0001, 0x8000_0000_8000_8008
  ]

  /** What bit 2^j - 1 of a word counts. */
  function Place(j: nat): nat {
    match j
    case 0 => 0x1
    case 1 => 0x2
    case 2 => 0x8
    case 3 => 0x80
    case 4 => 0x8000
    case 5 => 0x8000_0000
    case _ => TWO63
  }

  lemma PlacePower(j: nat)
    requires j < 7
    ensures Pow2(Pow2(j) - 1) == Place(j)
  {
    assert Pow2(0) == 1 && Pow2(1) == 2 && Pow2(2) == 4 && Pow2(3) == 8;
    assert Pow2(4) == 16 && Pow2(5) == 32 && Pow2(6) == 64;
    assert Pow2(7) == 128 && Pow2(8) == 256;
    hide Pow2;
    PowerOfSum(8, 256, 7, 128);
    PowerOfSum(8, 256, 8, 256);
    PowerOfSum(16, 0x1_0000, 15, 0x8000);
    Powers();
  }

  /** What the first n of the seven bits come to. */
  function SumOf(r: Reg, n: nat): nat {
    if n == 0 then 0 else SumOf(r, n - 1) + if Shown(r, n - 1) then Place(n - 1) else 0
  }

  lemma {:induction false} ValueSum(i: nat, n: nat)
    requires i < 24 && n <= 7
    ensures Value(i, n) == SumOf(Row(i), n)
  {
    hide Row, Shown, Rc, Pow2, Place;
    if n > 0 {
      ValueSum(i, n - 1);
      RcShown(i, n - 1);
      PlacePower(n - 1);
    }
  }

  /** The same bit by bit. */
  function Total(r: Reg): nat {
    (if Shown(r, 0) then 0x1 else 0) + (if Shown(r, 1) then 0x2 else 0) + (if Shown(r, 2) then 0x8 else 0)
    + (if Shown(r, 3) then 0x80 else 0) + (if Shown(r, 4) then 0x8000 else 0)
    + (if Shown(r, 5) then 0x8000_0000 else 0) + (if Shown(r, 6) then TWO63 else 0)
  }

  lemma SumIsTotal(r: Reg)
    ensures SumOf(r, 7) == Total(r)
  {
    hide Shown;
    assert SumOf(r, 1) == if Shown(r, 0) then 0x1 else 0;
    assert SumOf(r, 2) == SumOf(r, 1) + if Shown(r, 1) then 0x2 else 0;
    assert SumOf(r, 3) == SumOf(r, 2) + if Shown(r, 2) then 0x8 else 0;
    assert SumOf(r, 4) == SumOf(r, 3) + if Shown(r, 3) then 0x80 else 0;
    assert SumOf(r, 5) == SumOf(r, 4) + if Shown(r, 4) then 0x8000 else 0;
    assert SumOf(r, 6) == SumOf(r, 5) + if Shown(r, 5) then 0x8000_0000 else 0;
  }

  lemma TableSum(i: nat)
    requires i < 24
    ensures SumOf(Row(i), 7) == TABLE[i]
  {
    hide SumOf, Total, Row, TABLE;
    SumIsTotal(Row(i));
    if i < 6 { SumsTo6(i); } else if i < 12 { SumsTo12(i); } else if i < 18 { SumsTo18(i); } else { SumsTo24(i); }
  }

  lemma SumsTo6(i: nat)
    requires i < 6
    ensures Total(Row(i)) == TABLE[i]
  {
  }

  lemma SumsTo12(i: nat)
    requires 6 <= i < 12
    ensures Total(Row(i)) == TABLE[i]
  {
  }

  lemma SumsTo18(i: nat)
    requires 12 <= i < 18
    ensures Total(Row(i)) == TABLE[i]
  {
  }

  lemma SumsTo24(i: nat)
    requires 18 <= i < 24
    ensures Total(Row(i)) == TABLE[i]
  {
  }

  /** Whatever is a round constant of one of the 24 rounds is the one in the table of the hardware. */
  lemma ConstantsAreTable(c: Word, round: nat)
    requires IsRoundConstant(c, round) && round < 24
    ensures ToNat(c) == TABLE[round]
  {
    hide Value, SumOf, Row, IsRoundConstant, ToNat, TABLE;
    ConstantValue(c, round);
    ValueSum(round, 7);
    TableSum(round);
  }
}
