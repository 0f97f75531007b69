/** The round constants of Keccak, from a table filled by a linear feedback shift register. */
module Keccak {
  import opened Bits

  // ---- the register ----

  const INITIAL: Word := [true, false, false, false, false, false, false, false]

  /** The bits that flip when a set bit is shifted out. */
  const TAPS: Word := [true, false, false, false, true, true, true, false]

  /** One step as the generator takes it: shift, and flip bits 0, 4, 5 and 6 if a set bit was shifted out. */
  function Step(r: Word): (s: Word)
    requires |r| == 8
    ensures |s| == 8
  {
    var d := [false] + r;
    if d[8] then Xor(d[..8], TAPS) else d[..8]
  }

  /** One step as section 3.2.5 of FIPS 202 has it: each of bits 0, 4, 5 and 6 is added to bit 8. */
  function FipsStep(r: Word): (s: Word)
    requires |r| == 8
    ensures |s| == 8
  {
    var a := [false] + r;
    var b := a[0 := a[0] != a[8]];
    var c := b[4 := b[4] != b[8]];
    var d := c[5 := c[5] != c[8]];
    var e := d[6 := d[6] != d[8]];
    e[..8]
  }

  /** The register after t steps of the standard, without any modulus. */
  function FipsRun(t: nat): (r: Word)
    ensures |r| == 8
  {
    if t == 0 then INITIAL else FipsStep(FipsRun(t - 1))
  }

  /** Bit t of the sequence that the standard calls rc. */
  predicate Rc(t: nat) {
    FipsRun(t)[0]
  }

  lemma StepAgrees(r: Word)
    requires |r| == 8
    ensures Step(r) == FipsStep(r)
  {
    var s, f := Step(r), FipsStep(r);
    assert s[0] == f[0] && s[1] == f[1] && s[2] == f[2] && s[3] == f[3];
    assert s[4] == f[4] && s[5] == f[5] && s[6] == f[6] && s[7] == f[7];
  }

  // ---- the period ----

  datatype Reg = Reg(b0: bool, b1: bool, b2: bool, b3: bool, b4: bool, b5: bool, b6: bool, b7: bool)

  function ToReg(r: Word): Reg
    requires |r| == 8
  {
    Reg(r[0], r[1], r[2], r[3], r[4], r[5], r[6], r[7])
  }

  function StepReg(r: Reg): Reg {
    Reg(r.b7, r.b0, r.b1, r.b2, r.b3 != r.b7, r.b4 != r.b7, r.b5 != r.b7, r.b6)
  }

  function Steps(r: Reg, n: nat): Reg
    decreases n
  {
    if n == 0 then r else Steps(StepReg(r), n - 1)
  }

  lemma {:induction false} StepsAdd(r: Reg, m: nat, n: nat)
    ensures Steps(r, m + n) == Steps(Steps(r, m), n)
    decreases m
  {
    if m > 0 { StepsAdd(StepReg(r), m - 1, n); }
  }

  lemma ToRegInjective(r: Word, s: Word)
    requires |r| == |s| == 8 && ToReg(r) == ToReg(s)
    ensures r == s
  {
    assert r[0] == s[0] && r[1] == s[1] && r[2] == s[2] && r[3] == s[3];
    assert r[4] == s[4] && r[5] == s[5] && r[6] == s[6] && r[7] == s[7];
  }

  lemma {:induction false} RunSteps(t: nat)
    ensures ToReg(FipsRun(t)) == Steps(ToReg(INITIAL), t)
  {
    if t > 0 {
      RunSteps(t - 1);
      StepsAdd(ToReg(INITIAL), t - 1, 1);
      OneStep(FipsRun(t - 1));
      OneRegStep(Steps(ToReg(INITIAL), t - 1));
      assert FipsRun(t) == FipsStep(FipsRun(t - 1));
      hide FipsStep, ToReg, Steps, FipsRun;
    }
  }

  lemma OneStep(r: Word)
    requires |r| == 8
    ensures ToReg(FipsStep(r)) == StepReg(ToReg(r))
  {
  }

  lemma OneRegStep(r: Reg)
    ensures Steps(r, 1) == StepReg(r)
  {
    assert Steps(StepReg(r), 0) == StepReg(r);
  }

  /** Five steps at once: the step is linear in the bits. */
  function Five(r: Reg): Reg {
    Reg((r.b3 != r.b5) != r.b6, (r.b4 != r.b6) != r.b7, r.b5 != r.b7, r.b6,
        ((r.b3 != r.b5) != r.b6) != r.b7, (((r.b0 != r.b3) != r.b4) != r.b5) != r.b7,
        (r.b1 != r.b3) != r.b4, (r.b2 != r.b4) != r.b5)
  }

  /** Fifteen steps at once. */
  function Fifteen(r: Reg): Reg {
    Reg(
      (((r.b0 != r.b1) != r.b2) != r.b3) != r.b5,
      (((r.b1 != r.b2) != r.b3) != r.b4) != r.b6,
      (((r.b2 != r.b3) != r.b4) != r.b5) != r.b7,
      ((r.b3 != r.b4) != r.b5) != r.b6,
      ((((r.b1 != r.b2) != r.b3) != r.b4) != r.b6) != r.b7,
      (r.b1 != r.b4) != r.b7,
      (r.b0 != r.b1) != r.b3,
      ((r.b0 != r.b1) != r.b2) != r.b4)
  }

  lemma FiveSteps(r: Reg)
    ensures Steps(r, 5) == Five(r)
  {
  }

  lemma FifteenSteps(r: Reg)
    ensures Steps(r, 15) == Fifteen(r)
  {
    hide Five, Fifteen, Steps;
    FiveSteps(r);
    FiveSteps(Five(r));
    FiveSteps(Five(Five(r)));
    StepsAdd(r, 5, 5);
    StepsAdd(r, 10, 5);
    ThreeFives(r);
  }

  /** Ten steps at once. */
  function Ten(r: Reg): Reg {
    Reg(
      (((r.b0 != r.b1) != r.b5) != r.b6) != r.b7,
      ((r.b1 != r.b2) != r.b6) != r.b7,
      ((r.b0 != r.b2) != r.b3) != r.b7,
      (r.b1 != r.b3) != r.b4,
      ((((r.b0 != r.b1) != r.b2) != r.b4) != r.b6) != r.b7,
      ((r.b0 != r.b2) != r.b3) != r.b6,
      ((r.b3 != r.b4) != r.b5) != r.b6,
      (((r.b0 != r.b4) != r.b5) != r.b6) != r.b7)
  }

  lemma TwoFives(r: Reg)
    ensures Five(Five(r)) == Ten(r)
  {
  }

  lemma ThreeFives(r: Reg)
    ensures Five(Five(Five(r))) == Fifteen(r)
  {
    hide Five, Ten, Fifteen;
    TwoFives(r);
    FiveAndTen(r);
  }

  lemma FiveAndTen(r: Reg)
    ensures Five(Ten(r)) == Fifteen(r)
  {
  }

  function Fifteens(r: Reg, n: nat): Reg {
    if n == 0 then r else Fifteen(Fifteens(r, n - 1))
  }

  lemma {:induction false} FifteensSteps(r: Reg, n: nat)
    ensures Steps(r, 15 * n) == Fifteens(r, n)
  {
    if n > 0 {
      FifteensSteps(r, n - 1);
      StepsAdd(r, 15 * (n - 1), 15);
      FifteenSteps(Fifteens(r, n - 1));
    }
  }

  /** The register after every fifteenth step. */
  function Checkpoint(i: nat): Reg {
    match i
    case 0 => Reg(true, false, false, false, false, false, false, false)
    case 1 => Reg(true, false, false, false, false, false, true, true)
    case 2 => Reg(true, true, true, true, false, true, true, true)
    case 3 => Reg(true, false, false, true, true, false, true, true)
    case 4 => Reg(false, true, true, true, false, false, false, false)
    case 5 => Reg(true, true, false, true, true, true, false, false)
    case 6 => Reg(false, true, true, true, true, false, true, true)
    case 7 => Reg(true, true, false, true, false, true, false, true)
    case 8 => Reg(false, false, true, false, true, false, true, false)
    case 9 => Reg(true, true, false, false, true, true, false, false)
    case 10 => Reg(true, false, false, false, false, false, false, true)
    case 11 => Reg(true, false, true, false, true, true, true, true)
    case 12 => Reg(true, true, false, true, false, false, true, true)
    case 13 => Reg(true, true, false, false, false, false, true, false)
    case 14 => Reg(false, false, false, true, false, true, false, false)
    case 15 => Reg(false, true, false, false, true, false, true, false)
    case 16 => Reg(true, true, true, false, true, false, true, false)
    case _ => Reg(true, false, false, false, false, false, false, false)
  }

  lemma CheckpointStep(i: nat)
    requires i < 17
    ensures Fifteen(Checkpoint(i)) == Checkpoint(i + 1)
  {
    hide Fifteen, Checkpoint;
    if i < 6 { FirstSteps(i); } else if i < 12 { MiddleSteps(i); } else { LastSteps(i); }
  }

  lemma FirstSteps(i: nat)
    requires i < 6
    ensures Fifteen(Checkpoint(i)) == Checkpoint(i + 1)
  {
  }

  lemma MiddleSteps(i: nat)
    requires 6 <= i < 12
    ensures Fifteen(Checkpoint(i)) == Checkpoint(i + 1)
  {
  }

  lemma LastSteps(i: nat)
    requires 12 <= i < 17
    ensures Fifteen(Checkpoint(i)) == Checkpoint(i + 1)
  {
  }

  lemma {:induction false} Checkpoints(i: nat)
    requires i <= 17
    ensures Fifteens(Checkpoint(0), i) == Checkpoint(i)
  {
    hide Checkpoint, Fifteen;
    if i > 0 {
      Checkpoints(i - 1);
      CheckpointStep(i - 1);
    }
  }

  lemma FullTurn()
    ensures Steps(ToReg(INITIAL), 255) == ToReg(INITIAL)
  {
    hide Fifteens, Steps;
    Checkpoints(17);
    FifteensSteps(ToReg(INITIAL), 17);
  }

  /** The register has period 255. */
  lemma {:induction false} Period(t: nat)
    ensures FipsRun(t + 255) == FipsRun(t)
  {
    RunSteps(t + 255);
    RunSteps(t);
    StepsAdd(ToReg(INITIAL), 255, t);
    FullTurn();
    ToRegInjective(FipsRun(t + 255), FipsRun(t));
  }

  lemma ModuloLess(n: nat)
    ensures (n + 255) % 255 == n % 255
  {
  }

  /** Any number of steps leads where its remainder by 255 leads. */
  lemma {:induction false} RunModulo(t: nat)
    ensures FipsRun(t) == FipsRun(t % 255)
  {
    hide FipsRun;
    if t >= 255 {
      var before: nat := t - 255;
      RunModulo(before);
      Period(before);
      assert before + 255 == t;
      ModuloLess(before);
    }
  }

  // ---- the generator ----

  /** Fills the table of the first 256 bits. */
  method FillTable() returns (rc: array<bool>)
    ensures fresh(rc) && rc.Length == 256
    ensures forall i :: 0 <= i < 256 ==> rc[i] == Rc(i)
  {
    rc := new bool[256](_ => false);
    var r := INITIAL;
    rc[0] := true;
    for i := 1 to 256
      invariant r == FipsRun(i - 1)
      invariant forall k :: 0 <= k < i ==> rc[k] == Rc(k)
    {
      StepAgrees(r);
      var d := [false] + r;
      if d[8] {
        r := Xor(d[..8], TAPS);
      } else {
        r := d[..8];
      }
      rc[i] := r[0];
    }
  }

  /** The bit positions of a round constant that can be set. */
  lemma Positions(j: nat, k: nat)
    requires j < k < 7
    ensures Pow2(j) < Pow2(k) <= 64
  {
    Pow2Monotone(j, k);
    Pow2Monotone(k, 6);
    assert Pow2(6) == 64;
  }

  /** The first n of the seven bits of a round constant are in place and no others are set. */
  ghost predicate Placed(c: Word, round: nat, n: nat) {
    && |c| == 64
    && (forall j :: 0 <= j < n ==> Pow2(j) <= 64 && c[Pow2(j) - 1] == Rc(j + 7 * round))
    && (forall i :: 0 <= i < 64 && c[i] ==> Position(i, n))
  }

  /** One of the first n positions 2^j - 1. */
  ghost predicate Position(i: int, n: nat) {
    exists j: nat :: j < n && i == Pow2(j) - 1
  }

  lemma PositionMore(n: nat)
    ensures Position(Pow2(n) - 1, n + 1)
    ensures forall i :: Position(i, n) ==> Position(i, n + 1)
  {
  }

  /** A round constant as section 3.2.5 of FIPS 202 defines it: bit 2^j - 1 is rc(j + 7 * round), all others are
      clear. */
  ghost predicate IsRoundConstant(c: Word, round: nat) {
    Placed(c, round, 7)
  }

  lemma NonePlaced(round: nat)
    ensures Placed(Zeros(64), round, 0)
  {
  }

  lemma PlaceOne(c: Word, round: nat, j: nat)
    requires j < 7 && Placed(c, round, j)
    ensures |c| == 64 && Pow2(j) <= 64 && Placed(c[Pow2(j) - 1 := Rc(j + 7 * round)], round, j + 1)
  {
    hide Pow2, Rc, Position;
    PowBound(j);
    PositionMore(j);
    forall k | 0 <= k < j ensures Pow2(k) < Pow2(j) { Positions(k, j); }
  }

  method RoundConstant(rc: array<bool>, round: nat) returns (c: Word)
    requires rc.Length == 256 && forall i :: 0 <= i < 256 ==> rc[i] == Rc(i)
    ensures IsRoundConstant(c, round)
  {
    hide Pow2, Rc, Placed;
    c := Zeros(64);
    NonePlaced(round);
    for j := 0 to 7
      invariant Placed(c, round, j)
    {
      PlaceOne(c, round, j);
      TableIsRc(rc, j + 7 * round);
      c := c[Pow2(j) - 1 := rc[(j + 7 * round) % 255]];
    }
  }

  /** What the table holds at an index modulo 255 is the bit of the standard without any modulus. */
  lemma TableIsRc(rc: array<bool>, t: nat)
    requires rc.Length == 256 && forall i :: 0 <= i < 256 ==> rc[i] == Rc(i)
    ensures t % 255 < 255 && rc[t % 255] == Rc(t)
  {
    RunModulo(t);
  }

  lemma PowBound(j: nat)
    requires j < 7
    ensures Pow2(j) <= 64
  {
    Pow2Monotone(j, 6);
    assert Pow2(6) == 64;
  }

  /** The constants of all rounds; a number of rounds below one gives none. */
  method GenerateConstants(rounds: int) returns (cs: seq<Word>)
    ensures |cs| == if rounds < 0 then 0 else rounds
    ensures forall n :: 0 <= n < |cs| ==> IsRoundConstant(cs[n], n)
  {
    var rc := FillTable();
    cs := [];
    for n := 0 to (if rounds < 0 then 0 else rounds)
      invariant |cs| == n
      invariant fresh(rc) && rc.Length == 256 && forall i :: 0 <= i < 256 ==> rc[i] == Rc(i)
      invariant forall k :: 0 <= k < |cs| ==> IsRoundConstant(cs[k], k)
    {
      hide IsRoundConstant, Rc;
      var c := RoundConstant(rc, n);
      cs := cs + [c];
    }
  }
}
