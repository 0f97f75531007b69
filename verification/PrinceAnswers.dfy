/** PRINCE on states of sixteen nibbles, and its answer for zero data and a zero key. */
module PrinceAnswers {
  import opened Bits
  import opened Hexadecimal
  import opened PrinceConstants
  import opened Prince

  // ---- layers on nibbles ----

  function NibAnd(a: Nib, b: Nib): Nib {
    Nib(a.b0 && b.b0, a.b1 && b.b1, a.b2 && b.b2, a.b3 && b.b3)
  }

  function Digit(n: Nib): (v: nat)
    ensures v < 16
  {
    (if n.b0 then 1 else 0) + (if n.b1 then 2 else 0) + (if n.b2 then 4 else 0) + (if n.b3 then 8 else 0)
  }

  function SubNib(n: Nib, coeffs: seq<nat>): Nib
    requires |coeffs| == 16
  {
    NibOf(coeffs[Digit(n)])
  }

  function SubQuad(q: Quad, coeffs: seq<nat>): Quad
    requires |coeffs| == 16
  {
    Quad(SubNib(q.n0, coeffs), SubNib(q.n1, coeffs), SubNib(q.n2, coeffs), SubNib(q.n3, coeffs))
  }

  function SubState(s: State, coeffs: seq<nat>): State
    requires |coeffs| == 16
  {
    State(SubQuad(s.q0, coeffs), SubQuad(s.q1, coeffs), SubQuad(s.q2, coeffs), SubQuad(s.q3, coeffs))
  }

  /** The xor of the nibbles that a mask keeps. */
  function Reduced(q: Quad, mask: Quad): Nib {
    NibXor(NibXor(NibXor(NibAnd(q.n0, mask.n0), NibAnd(q.n1, mask.n1)), NibAnd(q.n2, mask.n2)), NibAnd(q.n3, mask.n3))
  }

  function MultMask(start: nat, j: nat): Quad
    requires j < 4
  {
    QuadOf(SHIFT_ROWS_CONSTS[(start + 3 - j) % 4])
  }

  function MultQuad(q: Quad, start: nat): Quad {
    Quad(Reduced(q, MultMask(start, 0)), Reduced(q, MultMask(start, 1)),
         Reduced(q, MultMask(start, 2)), Reduced(q, MultMask(start, 3)))
  }

  function MultState(s: State): State {
    State(MultQuad(s.q0, 0), MultQuad(s.q1, 1), MultQuad(s.q2, 1), MultQuad(s.q3, 0))
  }

  function ShiftState(s: State, shifts: seq<nat>): State
    requires |shifts| == 16
  {
    var n := (j: nat) requires j < 16 => StateNib(s, shifts[j]);
    State(Quad(n(0), n(1), n(2), n(3)), Quad(n(4), n(5), n(6), n(7)),
          Quad(n(8), n(9), n(10), n(11)), Quad(n(12), n(13), n(14), n(15)))
  }

  // ---- substitution and shift ----

  lemma NibbleIs(s: State, i: nat)
    requires i < 16
    ensures Nibble(WordOf(s), i) == FromNat(Digit(StateNib(s, i)), 4)
    ensures ToNat(Nibble(WordOf(s), i)) == Digit(StateNib(s, i))
  {
    hide WordOf, StateNib;
    var n := StateNib(s, i);
    forall b | 0 <= b < 4 ensures Nibble(WordOf(s), i)[b] == Bit(Digit(n), b) {
      WordBit(s, i, b);
      DigitBit(n, b);
    }
    ValueNibble(Digit(n));
  }

  lemma DigitBit(n: Nib, b: nat)
    requires b < 4
    ensures Bit(Digit(n), b) == NibBit(n, b)
  {
    hide Bit;
    FourBits(Digit(n), b);
  }

  lemma SubAgrees(s: State, coeffs: seq<nat>)
    requires Table(coeffs)
    ensures WordOf(SubState(s, coeffs)) == Sbox(WordOf(s), coeffs)
  {
    hide WordOf, Sbox;
    var c, d: Word64 := WordOf(SubState(s, coeffs)), Sbox(WordOf(s), coeffs);
    forall i, x | 0 <= i < 16 && 0 <= x < 4 ensures SameAt(c, d, i, x) { SubBitAgrees(s, coeffs, i, x); }
    SameWord(c, d);
  }

  lemma SubBitAgrees(s: State, coeffs: seq<nat>, i: nat, x: nat)
    requires Table(coeffs) && i < 16 && x < 4
    ensures SameAt(WordOf(SubState(s, coeffs)), Sbox(WordOf(s), coeffs), i, x)
  {
    hide WordOf, Sbox, SubNib, Digit, Bit;
    WordBit(SubState(s, coeffs), i, x);
    SboxAt(WordOf(s), coeffs, i, x);
    NibbleIs(s, i);
    assert StateNib(SubState(s, coeffs), i) == SubNib(StateNib(s, i), coeffs);
    SubNibIs(StateNib(s, i), coeffs, x);
  }

  lemma SubNibIs(n: Nib, coeffs: seq<nat>, b: nat)
    requires Table(coeffs) && b < 4
    ensures NibBit(SubNib(n, coeffs), b) == Bit(coeffs[Digit(n)], b)
  {
    hide Bit;
    NibOfBit(coeffs[Digit(n)], b);
  }

  lemma ShiftAgrees(s: State, inv: bool)
    ensures |Shifts(inv)| == 16 && WordOf(ShiftState(s, Shifts(inv))) == ShiftRows(WordOf(s), inv)
  {
    hide WordOf, ShiftRows, Shifts, ShiftState;
    ShiftTables(inv, 0);
    var c, d := WordOf(ShiftState(s, Shifts(inv))), ShiftRows(WordOf(s), inv);
    forall i, x | 0 <= i < 16 && 0 <= x < 4 ensures SameAt(c, d, i, x) { ShiftBitAgrees(s, inv, i, x); }
    SameWord(c, d);
  }

  lemma ShiftBitAgrees(s: State, inv: bool, i: nat, x: nat)
    requires i < 16 && x < 4
    ensures |Shifts(inv)| == 16 && SameAt(WordOf(ShiftState(s, Shifts(inv))), ShiftRows(WordOf(s), inv), i, x)
  {
    hide WordOf, ShiftRows, Shifts;
    ShiftTables(inv, i);
    var t := ShiftState(s, Shifts(inv));
    WordBit(t, i, x);
    ShiftRowsBit(WordOf(s), inv, i, x);
    WordBit(s, Shifts(inv)[i], x);
    assert StateNib(t, i) == StateNib(s, Shifts(inv)[i]) by { ShiftedNib(s, Shifts(inv), i); }
  }

  lemma ShiftedNib(s: State, shifts: seq<nat>, i: nat)
    requires |shifts| == 16 && i < 16
    ensures StateNib(ShiftState(s, shifts), i) == StateNib(s, shifts[i])
  {
    assert i / 4 == (if i < 4 then 0 else if i < 8 then 1 else if i < 12 then 2 else 3) && i % 4 == i - 4 * (i / 4);
  }

  // ---- the linear layer ----

  lemma MultAgrees(s: State)
    ensures WordOf(MultState(s)) == MultPrime(WordOf(s))
  {
    hide WordOf, MultPrime, MultState;
    var c, d := WordOf(MultState(s)), MultPrime(WordOf(s));
    forall i, x | 0 <= i < 16 && 0 <= x < 4 ensures SameAt(c, d, i, x) { MultBitAgrees(s, i / 4, i % 4, x); }
    SameWord(c, d);
  }

  lemma MultBitAgrees(s: State, blk: nat, n: nat, b: nat)
    requires blk < 4 && n < 4 && b < 4
    ensures SameAt(WordOf(MultState(s)), MultPrime(WordOf(s)), 4 * blk + n, b)
  {
    hide WordOf, MultPrime, AndMask, NibbleRed16, Reduced, QuadOf;
    var q := StateQuad(s, blk);
    WordBit(MultState(s), 4 * blk + n, b);
    assert (4 * blk + n) / 4 == blk && (4 * blk + n) % 4 == n;
    assert QuadNib(StateQuad(MultState(s), blk), n) == Reduced(q, QuadOf(SHIFT_ROWS_CONSTS[ConstIndex(blk, n)]));
    MultPrimeAt(WordOf(s), blk, n, b);
    assert 4 * (4 * blk + n) + b == 16 * blk + 4 * n + b;
    ReducedBit(s, blk, SHIFT_ROWS_CONSTS[ConstIndex(blk, n)], b);
  }

  lemma ReducedBit(s: State, blk: nat, mask: nat, b: nat)
    requires blk < 4 && b < 4
    ensures NibbleRed16(AndMask(Block(WordOf(s), blk), mask))[b] == NibBit(Reduced(StateQuad(s, blk), QuadOf(mask)), b)
  {
    hide WordOf, Bit, QuadOf, StateQuad, NibbleRed16, AndMask, Reduced, NibBit, QuadNib, Block;
    RedBit(Block(WordOf(s), blk), mask, b);
    ReducedNibBit(StateQuad(s, blk), QuadOf(mask), b);
    BlockNibBit(s, blk, 0, b);
    BlockNibBit(s, blk, 1, b);
    BlockNibBit(s, blk, 2, b);
    BlockNibBit(s, blk, 3, b);
    MaskBit(mask, 0, b);
    MaskBit(mask, 1, b);
    MaskBit(mask, 2, b);
    MaskBit(mask, 3, b);
  }

  lemma RedBit(block: Word, mask: nat, b: nat)
    requires |block| == 16 && b < 4
    ensures NibbleRed16(AndMask(block, mask))[b] ==
            ((((block[4 * 0 + b] && Bit(mask, 4 * 0 + b)) != (block[4 * 1 + b] && Bit(mask, 4 * 1 + b)))
              != (block[4 * 2 + b] && Bit(mask, 4 * 2 + b))) != (block[4 * 3 + b] && Bit(mask, 4 * 3 + b)))
  {
    hide Bit;
  }

  lemma ReducedNibBit(q: Quad, mask: Quad, b: nat)
    requires b < 4
    ensures NibBit(Reduced(q, mask), b) ==
            ((((NibBit(QuadNib(q, 0), b) && NibBit(QuadNib(mask, 0), b))
               != (NibBit(QuadNib(q, 1), b) && NibBit(QuadNib(mask, 1), b)))
              != (NibBit(QuadNib(q, 2), b) && NibBit(QuadNib(mask, 2), b)))
             != (NibBit(QuadNib(q, 3), b) && NibBit(QuadNib(mask, 3), b)))
  {
  }

  lemma BlockNibBit(s: State, blk: nat, q: nat, b: nat)
    requires blk < 4 && q < 4 && b < 4
    ensures Block(WordOf(s), blk)[4 * q + b] == NibBit(QuadNib(StateQuad(s, blk), q), b)
  {
    hide WordOf, StateQuad;
    WordBit(s, 4 * blk + q, b);
    assert (4 * blk + q) / 4 == blk && (4 * blk + q) % 4 == q;
    assert 4 * (4 * blk + q) + b == 16 * blk + (4 * q + b);
  }

  // ---- rounds ----

  function FwdState(rc: State, key: State, s: State): State {
    StateXor(StateXor(ShiftState(MultState(SubState(s, SBOX4)), SHIFT_ROWS64), rc), key)
  }

  function MiddleState(s: State): State {
    SubState(MultState(SubState(s, SBOX4)), SBOX4_INV)
  }

  function InvState(rc: State, key: State, s: State): State {
    SubState(MultState(ShiftState(StateXor(StateXor(s, key), rc), SHIFT_ROWS64_INV)), SBOX4_INV)
  }

  lemma FwdAgrees(r: nat, key: State, s: State)
    requires r < 12
    ensures FwdRound(RoundConst(r), WordOf(key), WordOf(s)) == WordOf(FwdState(StateOf(ROUND_CONSTS[r]), key, s))
  {
    hide WordOf, StateOf, SubState, MultState, ShiftState, StateXor, Sbox, MultPrime, ShiftRows, FromNat;
    TablesInvert();
    var a, rc := SubState(s, SBOX4), StateOf(ROUND_CONSTS[r]);
    SubAgrees(s, SBOX4);
    MultAgrees(a);
    ShiftAgrees(MultState(a), false);
    var b := ShiftState(MultState(a), SHIFT_ROWS64);
    NumberAgrees(ROUND_CONSTS[r]);
    XorAgrees(b, rc);
    XorAgrees(StateXor(b, rc), key);
  }

  lemma MiddleAgrees(s: State)
    ensures Middle(WordOf(s)) == WordOf(MiddleState(s))
  {
    hide WordOf, SubState, MultState, Sbox, MultPrime;
    TablesInvert();
    SubAgrees(s, SBOX4);
    MultAgrees(SubState(s, SBOX4));
    SubAgrees(MultState(SubState(s, SBOX4)), SBOX4_INV);
  }

  lemma InvAgrees(r: nat, key: State, s: State)
    requires r < 12
    ensures InvRound(RoundConst(r), WordOf(key), WordOf(s)) == WordOf(InvState(StateOf(ROUND_CONSTS[r]), key, s))
  {
    hide WordOf, StateOf, SubState, MultState, ShiftState, StateXor, Sbox, MultPrime, ShiftRows, FromNat;
    TablesInvert();
    var rc := StateOf(ROUND_CONSTS[r]);
    NumberAgrees(ROUND_CONSTS[r]);
    XorAgrees(s, key);
    XorAgrees(StateXor(s, key), rc);
    var a := StateXor(StateXor(s, key), rc);
    ShiftAgrees(a, true);
    var b := ShiftState(a, SHIFT_ROWS64_INV);
    MultAgrees(b);
    SubAgrees(MultState(b), SBOX4_INV);
  }

  // ---- the tables at work ----

  lemma Substituted()
    ensures SubNib(H0, SBOX4) == HB && SubNib(H0, SBOX4_INV) == HB
    ensures SubNib(H1, SBOX4) == HF && SubNib(H1, SBOX4_INV) == H7
    ensures SubNib(H2, SBOX4) == H3 && SubNib(H2, SBOX4_INV) == H3
    ensures SubNib(H3, SBOX4) == H2 && SubNib(H3, SBOX4_INV) == H2
    ensures SubNib(H4, SBOX4) == HA && SubNib(H4, SBOX4_INV) == HF
    ensures SubNib(H5, SBOX4) == HC && SubNib(H5, SBOX4_INV) == HD
    ensures SubNib(H6, SBOX4) == H9 && SubNib(H6, SBOX4_INV) == H8
    ensures SubNib(H7, SBOX4) == H1 && SubNib(H7, SBOX4_INV) == H9
    ensures SubNib(H8, SBOX4) == H6 && SubNib(H8, SBOX4_INV) == HA
    ensures SubNib(H9, SBOX4) == H7 && SubNib(H9, SBOX4_INV) == H6
    ensures SubNib(HA, SBOX4) == H8 && SubNib(HA, SBOX4_INV) == H4
    ensures SubNib(HB, SBOX4) == H0 && SubNib(HB, SBOX4_INV) == H0
    ensures SubNib(HC, SBOX4) == HE && SubNib(HC, SBOX4_INV) == H5
    ensures SubNib(HD, SBOX4) == H5 && SubNib(HD, SBOX4_INV) == HE
    ensures SubNib(HE, SBOX4) == HD && SubNib(HE, SBOX4_INV) == HC
    ensures SubNib(HF, SBOX4) == H4 && SubNib(HF, SBOX4_INV) == H1
  {
    DigitsOfHex();
    DigitsBack();
    var a, b := SBOX4, SBOX4_INV;
    assert a[0] == 11 && a[1] == 15 && a[2] == 3 && a[3] == 2;
    assert a[4] == 10 && a[5] == 12 && a[6] == 9 && a[7] == 1;
    assert a[8] == 6 && a[9] == 7 && a[10] == 8 && a[11] == 0;
    assert a[12] == 14 && a[13] == 5 && a[14] == 13 && a[15] == 4;
    assert b[0] == 11 && b[1] == 7 && b[2] == 3 && b[3] == 2;
    assert b[4] == 15 && b[5] == 13 && b[6] == 8 && b[7] == 9;
    assert b[8] == 10 && b[9] == 6 && b[10] == 4 && b[11] == 0;
    assert b[12] == 5 && b[13] == 14 && b[14] == 12 && b[15] == 1;
    hide Digit, NibOf;
  }

  lemma DigitsOfHex()
    ensures Digit(H0) == 0 && Digit(H1) == 1 && Digit(H2) == 2 && Digit(H3) == 3
    ensures Digit(H4) == 4 && Digit(H5) == 5 && Digit(H6) == 6 && Digit(H7) == 7
    ensures Digit(H8) == 8 && Digit(H9) == 9 && Digit(HA) == 10 && Digit(HB) == 11
    ensures Digit(HC) == 12 && Digit(HD) == 13 && Digit(HE) == 14 && Digit(HF) == 15
  {
  }

  lemma Shifted(s: State)
    ensures ShiftState(s, SHIFT_ROWS64) == State(
              Quad(StateNib(s, 4), StateNib(s, 9), StateNib(s, 14), StateNib(s, 3)),
              Quad(StateNib(s, 8), StateNib(s, 13), StateNib(s, 2), StateNib(s, 7)),
              Quad(StateNib(s, 12), StateNib(s, 1), StateNib(s, 6), StateNib(s, 11)),
              Quad(StateNib(s, 0), StateNib(s, 5), StateNib(s, 10), StateNib(s, 15)))
    ensures ShiftState(s, SHIFT_ROWS64_INV) == State(
              Quad(StateNib(s, 12), StateNib(s, 9), StateNib(s, 6), StateNib(s, 3)),
              Quad(StateNib(s, 0), StateNib(s, 13), StateNib(s, 10), StateNib(s, 7)),
              Quad(StateNib(s, 4), StateNib(s, 1), StateNib(s, 14), StateNib(s, 11)),
              Quad(StateNib(s, 8), StateNib(s, 5), StateNib(s, 2), StateNib(s, 15)))
  {
    hide StateNib;
    ShiftTables(true, 0);
    var a, b := SHIFT_ROWS64, SHIFT_ROWS64_INV;
    assert a[0] == 4 && a[1] == 9 && a[2] == 14 && a[3] == 3;
    assert a[4] == 8 && a[5] == 13 && a[6] == 2 && a[7] == 7;
    assert a[8] == 12 && a[9] == 1 && a[10] == 6 && a[11] == 11;
    assert a[12] == 0 && a[13] == 5 && a[14] == 10 && a[15] == 15;
    assert b[0] == 12 && b[1] == 9 && b[2] == 6 && b[3] == 3;
    assert b[4] == 0 && b[5] == 13 && b[6] == 10 && b[7] == 7;
    assert b[8] == 4 && b[9] == 1 && b[10] == 14 && b[11] == 11;
    assert b[12] == 8 && b[13] == 5 && b[14] == 2 && b[15] == 15;
  }

  /** The xor of four bits without one of them. */
  function Three(w: bool, x: bool, y: bool, z: bool, but: nat): bool {
    if but == 0 then (x != y) != z else if but == 1 then (w != y) != z
    else if but == 2 then (w != x) != z else (w != x) != y
  }

  /** The xor of four nibbles, each bit without one of them in turn. */
  function AllBut(q: Quad, r: nat): Nib {
    Nib(Three(q.n0.b0, q.n1.b0, q.n2.b0, q.n3.b0, r), Three(q.n0.b1, q.n1.b1, q.n2.b1, q.n3.b1, (r + 1) % 4),
        Three(q.n0.b2, q.n1.b2, q.n2.b2, q.n3.b2, (r + 2) % 4), Three(q.n0.b3, q.n1.b3, q.n2.b3, q.n3.b3, (r + 3) % 4))
  }

  lemma Kept(n: Nib)
    ensures NibAnd(n, HE) == Nib(false, n.b1, n.b2, n.b3) && NibAnd(n, HD) == Nib(n.b0, false, n.b2, n.b3)
    ensures NibAnd(n, HB) == Nib(n.b0, n.b1, false, n.b3) && NibAnd(n, H7) == Nib(n.b0, n.b1, n.b2, false)
  {
  }

  lemma MaskedBy0(q: Quad)
    ensures Reduced(q, Quad(HE, HD, HB, H7)) == AllBut(q, 0)
  {
    hide NibAnd, H7, HB, HD, HE;
    Kept(q.n0);
    Kept(q.n1);
    Kept(q.n2);
    Kept(q.n3);
  }

  lemma MaskedBy1(q: Quad)
    ensures Reduced(q, Quad(H7, HE, HD, HB)) == AllBut(q, 1)
  {
    hide NibAnd, H7, HB, HD, HE;
    Kept(q.n0);
    Kept(q.n1);
    Kept(q.n2);
    Kept(q.n3);
  }

  lemma MaskedBy2(q: Quad)
    ensures Reduced(q, Quad(HB, H7, HE, HD)) == AllBut(q, 2)
  {
    hide NibAnd, H7, HB, HD, HE;
    Kept(q.n0);
    Kept(q.n1);
    Kept(q.n2);
    Kept(q.n3);
  }

  lemma MaskedBy3(q: Quad)
    ensures Reduced(q, Quad(HD, HB, H7, HE)) == AllBut(q, 3)
  {
    hide NibAnd, H7, HB, HD, HE;
    Kept(q.n0);
    Kept(q.n1);
    Kept(q.n2);
    Kept(q.n3);
  }

  lemma ProductIs(q: Quad)
    ensures MultQuad(q, 0) == Quad(AllBut(q, 3), AllBut(q, 2), AllBut(q, 1), AllBut(q, 0))
    ensures MultQuad(q, 1) == Quad(AllBut(q, 0), AllBut(q, 3), AllBut(q, 2), AllBut(q, 1))
  {
    hide Reduced, AllBut, MultMask, H0, H1, H2, H3, H4, H5, H6, H7, H8, H9, HA, HB, HC, HD, HE, HF;
    Masks();
    MaskedBy0(q);
    MaskedBy1(q);
    MaskedBy2(q);
    MaskedBy3(q);
  }

  /** Each mask leaves out one bit position of each nibble. */
  lemma Masks()
    ensures MultMask(0, 0) == Quad(HD, HB, H7, HE)
    ensures MultMask(0, 1) == Quad(HB, H7, HE, HD)
    ensures MultMask(0, 2) == Quad(H7, HE, HD, HB)
    ensures MultMask(0, 3) == Quad(HE, HD, HB, H7)
    ensures MultMask(1, 0) == Quad(HE, HD, HB, H7)
    ensures MultMask(1, 1) == Quad(HD, HB, H7, HE)
    ensures MultMask(1, 2) == Quad(HB, H7, HE, HD)
    ensures MultMask(1, 3) == Quad(H7, HE, HD, HB)
  {
    DigitsBack();
    hide NibOf;
    assert SHIFT_ROWS_CONSTS[0] == 0x7bde && SHIFT_ROWS_CONSTS[1] == 0xbde7;
    assert SHIFT_ROWS_CONSTS[2] == 0xde7b && SHIFT_ROWS_CONSTS[3] == 0xe7bd;
  }

  lemma AnswerDigits()
    ensures StateOf(0x8186_65aa_0d02_dfda) == Hex(H8, H1, H8, H6, H6, H5, HA, HA, H0, HD, H0, H2, HD, HF, HD, HA)
  {
    hide NibOf, QuadOf, StateOf;
    DigitsBack();
    QuadOfDigits(10, 13, 15, 13);
    QuadOfDigits(2, 0, 13, 0);
    QuadOfDigits(10, 10, 5, 6);
    QuadOfDigits(6, 8, 1, 8);
    StateOfQuads(0xdfda, 0x0d02, 0x65aa, 0x8186);
  }

  // ---- the known answer ----

  const ZERO: State := Hex(H0, H0, H0, H0, H0, H0, H0, H0, H0, H0, H0, H0, H0, H0, H0, H0)

  lemma ZeroWord()
    ensures WordOf(ZERO) == Zeros(64)
  {
  }

  lemma Products(s: State)
    ensures MultState(s) == State(
              Quad(AllBut(s.q0, 3), AllBut(s.q0, 2), AllBut(s.q0, 1), AllBut(s.q0, 0)),
              Quad(AllBut(s.q1, 0), AllBut(s.q1, 3), AllBut(s.q1, 2), AllBut(s.q1, 1)),
              Quad(AllBut(s.q2, 0), AllBut(s.q2, 3), AllBut(s.q2, 2), AllBut(s.q2, 1)),
              Quad(AllBut(s.q3, 3), AllBut(s.q3, 2), AllBut(s.q3, 1), AllBut(s.q3, 0)))
  {
    hide MultQuad, AllBut;
    ProductIs(s.q0);
    ProductIs(s.q1);
    ProductIs(s.q2);
    ProductIs(s.q3);
  }

  lemma FirstWord()
    ensures FwdRounds(Zeros(64), Zeros(64), 0, Zeros(64)) == WordOf(ZERO)
  {
    ZeroWord();
  }

  lemma NothingAdded(s: State)
    ensures StateXor(s, ZERO) == s
  {
  }

  lemma FwdNext(h: nat, s: State, a: State, b: State, c: State, t: State)
    requires 1 <= h <= 5 && FwdRounds(Zeros(64), Zeros(64), h - 1, Zeros(64)) == WordOf(s)
    requires SubState(s, SBOX4) == a && MultState(a) == b && ShiftState(b, SHIFT_ROWS64) == c
    requires StateXor(c, ConstState(h)) == t
    ensures FwdRounds(Zeros(64), Zeros(64), h, Zeros(64)) == WordOf(t)
  {
    hide WordOf, StateOf, SubState, MultState, ShiftState, StateXor, FwdRound, RoundConst, ZERO;
    ZeroWord();
    FwdAgrees(h, ZERO, s);
    NothingAdded(t);
  }

  /** The last h rounds. */
  function LastRounds(h: nat, s: State): Word64
    requires h <= 5
  {
    InvRounds(Zeros(64), Zeros(64), h, WordOf(s))
  }

  lemma InvNext(r: nat, s: State, a: State, b: State, c: State, t: State)
    requires 6 <= r <= 10 && StateXor(s, ConstState(r)) == a && ShiftState(a, SHIFT_ROWS64_INV) == b
    requires MultState(b) == c && SubState(c, SBOX4_INV) == t
    ensures LastRounds(11 - r, s) == LastRounds(10 - r, t)
  {
    hide WordOf, StateOf, SubState, MultState, ShiftState, StateXor, InvRound, RoundConst, ZERO;
    ZeroWord();
    InvAgrees(r, ZERO, s);
    NothingAdded(s);
  }

  lemma Forward1()
    ensures FwdRounds(Zeros(64), Zeros(64), 1, Zeros(64)) ==
            WordOf(Hex(HA, H8, HA, H2, H3, H1, H9, H5, HB, H8, HC, HB, HC, H8, HF, HF))
  {
    hide WordOf, FwdRounds, SubNib, MultQuad, ShiftState, ConstState;
    var s := Hex(H0, H0, H0, H0, H0, H0, H0, H0, H0, H0, H0, H0, H0, H0, H0, H0);
    var a := Hex(HB, HB, HB, HB, HB, HB, HB, HB, HB, HB, HB, HB, HB, HB, HB, HB);
    var b := Hex(HB, HB, HB, HB, HB, HB, HB, HB, HB, HB, HB, HB, HB, HB, HB, HB);
    var c := Hex(HB, HB, HB, HB, HB, HB, HB, HB, HB, HB, HB, HB, HB, HB, HB, HB);
    FirstWord();
    Substituted();
    Products(a);
    Shifted(b);
    Const1();
    FwdNext(1, s, a, b, c, Hex(HA, H8, HA, H2, H3, H1, H9, H5, HB, H8, HC, HB, HC, H8, HF, HF));
  }

  lemma Forward2()
    ensures FwdRounds(Zeros(64), Zeros(64), 2, Zeros(64)) ==
            WordOf(Hex(H2, H5, HC, H5, HE, H8, HC, H5, H8, H7, H4, HF, H7, H6, H7, HE))
  {
    hide WordOf, FwdRounds, SubNib, MultQuad, ShiftState, ConstState;
    var s := Hex(HA, H8, HA, H2, H3, H1, H9, H5, HB, H8, HC, HB, HC, H8, HF, HF);
    var a := Hex(H8, H6, H8, H3, H2, HF, H7, HC, H0, H6, HE, H0, HE, H6, H4, H4);
    var b := Hex(H8, H7, HD, H7, HD, H1, HA, H0, HA, H0, HC, HE, H4, HE, HE, HC);
    var c := Hex(H8, H1, HC, HC, HD, H0, HE, H7, HA, HE, HD, H0, H4, H7, HA, HE);
    Forward1();
    Substituted();
    Products(a);
    Shifted(b);
    Const2();
    FwdNext(2, s, a, b, c, Hex(H2, H5, HC, H5, HE, H8, HC, H5, H8, H7, H4, HF, H7, H6, H7, HE));
  }

  lemma Forward3()
    ensures FwdRounds(Zeros(64), Zeros(64), 3, Zeros(64)) ==
            WordOf(Hex(HB, HD, HB, H3, H8, HC, H8, H8, H3, H1, H7, H9, H3, H9, H4, H2))
  {
    hide WordOf, FwdRounds, SubNib, MultQuad, ShiftState, ConstState;
    var s := Hex(H2, H5, HC, H5, HE, H8, HC, H5, H8, H7, H4, HF, H7, H6, H7, HE);
    var a := Hex(H3, HC, HE, HC, HD, H6, HE, HC, H6, H1, HA, H4, H1, H9, H1, HD);
    var b := Hex(HB, H5, H3, H0, H7, H5, HC, H7, HD, H6, H9, HB, H5, HD, H1, HD);
    var c := Hex(HB, H5, H9, HD, H7, H6, H1, H0, HD, HD, H3, H7, H5, H5, HC, HB);
    Forward2();
    Substituted();
    Products(a);
    Shifted(b);
    Const3();
    FwdNext(3, s, a, b, c, Hex(HB, HD, HB, H3, H8, HC, H8, H8, H3, H1, H7, H9, H3, H9, H4, H2));
  }

  lemma Forward4()
    ensures FwdRounds(Zeros(64), Zeros(64), 4, Zeros(64)) ==
            WordOf(Hex(H7, HB, H3, H6, HC, HD, H9, H3, HB, H6, HB, HE, HA, H4, H1, H9))
  {
    hide WordOf, FwdRounds, SubNib, MultQuad, ShiftState, ConstState;
    var s := Hex(HB, HD, HB, H3, H8, HC, H8, H8, H3, H1, H7, H9, H3, H9, H4, H2);
    var a := Hex(H0, H5, H0, H2, H6, HE, H6, H6, H2, HF, H1, H7, H2, H7, HA, H3);
    var b := Hex(H3, H7, H6, H5, HE, HE, H6, HE, H8, HC, H1, HE, HB, HE, H7, HE);
    var c := Hex(H3, HE, H1, HE, HE, HC, H7, H5, H8, HE, H6, HE, HB, H7, H6, HE);
    Forward3();
    Substituted();
    Products(a);
    Shifted(b);
    Const4();
    FwdNext(4, s, a, b, c, Hex(H7, HB, H3, H6, HC, HD, H9, H3, HB, H6, HB, HE, HA, H4, H1, H9));
  }

  lemma Forward5()
    ensures FwdRounds(Zeros(64), Zeros(64), 5, Zeros(64)) ==
            WordOf(Hex(H2, H3, H9, H0, HD, H7, HA, H4, HF, HD, H4, H9, H1, HE, HE, H9))
  {
    hide WordOf, FwdRounds, SubNib, MultQuad, ShiftState, ConstState;
    var s := Hex(H7, HB, H3, H6, HC, HD, H9, H3, HB, H6, HB, HE, HA, H4, H1, H9);
    var a := Hex(H1, H0, H2, H9, HE, H5, H7, H2, H0, H9, H0, HD, H8, HA, HF, H7);
    var b := Hex(H9, H2, HA, HB, HB, HD, H8, H0, HC, H1, HC, H5, H1, H9, H6, H4);
    var c := Hex(H9, HD, HC, H4, HB, H1, H6, HB, HC, H9, HA, H0, H1, H2, H8, H5);
    Forward4();
    Substituted();
    Products(a);
    Shifted(b);
    Const5();
    FwdNext(5, s, a, b, c, Hex(H2, H3, H9, H0, HD, H7, HA, H4, HF, HD, H4, H9, H1, HE, HE, H9));
  }

  lemma MiddleAnswer()
    ensures Middle(WordOf(Hex(H2, H3, H9, H0, HD, H7, HA, H4, HF, HD, H4, H9, H1, HE, HE, H9))) ==
            WordOf(Hex(HC, H8, H1, H4, H4, H1, HD, H8, HA, H7, HC, H0, HD, HE, H9, H9))
  {
    hide WordOf, SubNib, MultQuad;
    var s := Hex(H2, H3, H9, H0, HD, H7, HA, H4, HF, HD, H4, H9, H1, HE, HE, H9);
    var a := Hex(H3, H2, H7, HB, H5, H1, H8, HA, H4, H5, HA, H7, HF, HD, HD, H7);
    var b := Hex(HE, H6, HF, HA, HA, HF, H5, H6, H8, H1, HE, HB, H5, HD, H7, H7);
    Substituted();
    assert SubState(s, SBOX4) == a;
    assert SubState(b, SBOX4_INV) == Hex(HC, H8, H1, H4, H4, H1, HD, H8, HA, H7, HC, H0, HD, HE, H9, H9);
    hide SubState;
    Products(a);
    assert MultState(a) == b;
    hide MultState;
    MiddleAgrees(s);
  }

  lemma Backward6()
    ensures LastRounds(5, Hex(HC, H8, H1, H4, H4, H1, HD, H8, HA, H7, HC, H0, HD, HE, H9, H9)) ==
            LastRounds(4, Hex(HF, H1, HC, H6, H2, HD, H7, H8, H2, HD, HB, H0, HC, HC, HA, H5))
  {
    hide LastRounds, SubNib, MultQuad, ShiftState, ConstState;
    var s := Hex(HC, H8, H1, H4, H4, H1, HD, H8, HA, H7, HC, H0, HD, HE, H9, H9);
    var a := Hex(HB, H6, HE, HC, H0, HE, HA, H0, H5, HA, H5, H5, H8, H2, H2, H8);
    var b := Hex(HB, H2, H5, H0, H0, H6, H2, H5, H5, HE, HE, H8, H8, HA, HA, HC);
    var c := Hex(H4, HF, HE, H9, H3, H5, H1, H6, H3, H5, H0, HB, HE, HE, H8, HC);
    Const6();
    Shifted(a);
    Products(b);
    Substituted();
    InvNext(6, s, a, b, c, Hex(HF, H1, HC, H6, H2, HD, H7, H8, H2, HD, HB, H0, HC, HC, HA, H5));
  }

  lemma Backward7()
    ensures LastRounds(4, Hex(HF, H1, HC, H6, H2, HD, H7, H8, H2, HD, HB, H0, HC, HC, HA, H5)) ==
            LastRounds(3, Hex(HD, H1, H2, H6, H3, H5, H4, HC, H1, H8, HF, HC, H4, HF, HF, HC))
  {
    hide LastRounds, SubNib, MultQuad, ShiftState, ConstState;
    var s := Hex(HF, H1, HC, H6, H2, HD, H7, H8, H2, HD, HB, H0, HC, HC, HA, H5);
    var a := Hex(H7, H4, H4, H2, H2, H5, H2, H9, HD, HC, H1, HC, H8, HF, H0, HF);
    var b := Hex(H7, HF, H1, H9, H2, H4, H0, HC, HD, H5, H4, HF, H8, HC, H2, H2);
    var c := Hex(H5, HF, H3, H9, H2, HC, HA, HE, HF, H6, H4, HE, HA, H4, H4, HE);
    Const7();
    Shifted(a);
    Products(b);
    Substituted();
    InvNext(7, s, a, b, c, Hex(HD, H1, H2, H6, H3, H5, H4, HC, H1, H8, HF, HC, H4, HF, HF, HC));
  }

  lemma Backward8()
    ensures LastRounds(3, Hex(HD, H1, H2, H6, H3, H5, H4, HC, H1, H8, HF, HC, H4, HF, HF, HC)) ==
            LastRounds(2, Hex(H5, H1, HF, H4, H1, H5, H6, H6, HE, HE, H8, H7, HC, H5, H1, HD))
  {
    hide LastRounds, SubNib, MultQuad, ShiftState, ConstState;
    var s := Hex(HD, H1, H2, H6, H3, H5, H4, HC, H1, H8, HF, HC, H4, HF, HF, HC);
    var a := Hex(H1, H9, HA, H4, HE, H6, H6, H3, H3, HD, HC, HE, H7, H3, HA, H8);
    var b := Hex(H1, H3, HC, H3, HE, H9, HA, HE, H3, H6, HA, H8, H7, HD, H6, H4);
    var c := Hex(HC, HF, H4, HA, HF, HC, H9, H9, HD, HD, H6, H1, HE, HC, HF, H5);
    Const8();
    Shifted(a);
    Products(b);
    Substituted();
    InvNext(8, s, a, b, c, Hex(H5, H1, HF, H4, H1, H5, H6, H6, HE, HE, H8, H7, HC, H5, H1, HD));
  }

  lemma Backward9()
    ensures LastRounds(2, Hex(H5, H1, HF, H4, H1, H5, H6, H6, HE, HE, H8, H7, HC, H5, H1, HD)) ==
            LastRounds(1, Hex(HD, H3, HB, HD, H7, HD, HB, HF, HB, H7, HD, HD, HD, H6, HB, H8))
  {
    hide LastRounds, SubNib, MultQuad, ShiftState, ConstState;
    var s := Hex(H5, H1, HF, H4, H1, H5, H6, H6, HE, HE, H8, H7, HC, H5, H1, HD);
    var a := Hex(H3, H5, H5, H1, H0, H4, HF, H3, H0, HE, H6, H4, HA, H4, H1, H0);
    var b := Hex(H3, H4, H6, H3, H0, H5, H1, H4, H0, H4, H5, H0, HA, HE, HF, H1);
    var c := Hex(H5, H2, H0, H5, H1, H5, H0, H4, H0, H1, H5, H5, H5, H9, H0, H6);
    Const9();
    Shifted(a);
    Products(b);
    Substituted();
    InvNext(9, s, a, b, c, Hex(HD, H3, HB, HD, H7, HD, HB, HF, HB, H7, HD, HD, HD, H6, HB, H8));
  }

  lemma Backward10()
    ensures LastRounds(1, Hex(HD, H3, HB, HD, H7, HD, HB, HF, HB, H7, HD, HD, HD, H6, HB, H8)) ==
            LastRounds(0, Hex(H4, H1, H2, HA, H4, HC, H1, HD, HC, H4, H7, HE, H8, HF, H0, H7))
  {
    hide LastRounds, SubNib, MultQuad, ShiftState, ConstState;
    var s := Hex(HD, H3, HB, HD, H7, HD, HB, HF, HB, H7, HD, HD, HD, H6, HB, H8);
    var a := Hex(H0, H0, H0, H8, HD, HE, H2, H6, H7, HD, HD, H1, HF, H5, H2, H1);
    var b := Hex(H0, H5, HD, H6, HD, H0, H2, H1, H7, HE, H0, H1, HF, HD, H2, H8);
    var c := Hex(HA, HF, H3, H8, HA, HE, HF, H5, HE, HA, H1, HD, H6, H4, HB, H1);
    Const10();
    Shifted(a);
    Products(b);
    Substituted();
    InvNext(10, s, a, b, c, Hex(H4, H1, H2, HA, H4, HC, H1, HD, HC, H4, H7, HE, H8, HF, H0, H7));
  }

  /** With zero data and a zero key five half rounds give the number published with the cipher. */
  lemma ZeroAnswer()
    ensures ToNat(Encrypt(Zeros(64), Zeros(128), 5)) == 0x8186_65aa_0d02_dfda
  {
    hide WordOf, StateOf, FwdRounds, InvRounds, Middle, RoundConst, ROUND_CONSTS;
    ZeroKeys();
    RoundConstZero();
    XorZero(Zeros(64));
    Forward5();
    MiddleAnswer();
    Backward6();
    Backward7();
    Backward8();
    Backward9();
    Backward10();
    var last := Hex(H4, H1, H2, HA, H4, HC, H1, HD, HC, H4, H7, HE, H8, HF, H0, H7);
    NoRounds(WordOf(last));
    LastConst(last);
  }

  lemma ZeroKeys()
    ensures LowHalf(Zeros(128)) == Zeros(64) && HighHalf(Zeros(128)) == Zeros(64) && K0Prime(Zeros(64)) == Zeros(64)
  {
  }

  lemma XorZero(w: Word64)
    ensures Xor(w, Zeros(64)) == w
  {
  }

  lemma NoRounds(w: Word64)
    ensures InvRounds(Zeros(64), Zeros(64), 0, w) == w
  {
  }

  lemma LastConst(last: State)
    requires last == Hex(H4, H1, H2, HA, H4, HC, H1, HD, HC, H4, H7, HE, H8, HF, H0, H7)
    ensures ToNat(Xor(Xor(Xor(WordOf(last), RoundConst(11)), Zeros(64)), Zeros(64))) == 0x8186_65aa_0d02_dfda
  {
    hide WordOf, StateOf, FromNat, Pow2;
    Const11();
    NumberAgrees(ROUND_CONSTS[11]);
    XorAgrees(last, StateOf(ROUND_CONSTS[11]));
    AnswerDigits();
    NumberAgrees(0x8186_65aa_0d02_dfda);
    XorZero(Xor(WordOf(last), RoundConst(11)));
    Powers();
    ToFromNat(0x8186_65aa_0d02_dfda, 64);
  }
}
