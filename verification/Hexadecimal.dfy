/** 64-bit words written as hexadecimal digits. */
module Hexadecimal {
  import opened Bits

  const TWO63: nat := 0x8000_0000_0000_0000
  const TWO64: nat := 0x1_0000_0000_0000_0000

  lemma Powers()
    ensures Pow2(63) == TWO63 && Pow2(64) == TWO64
  {
    assert Pow2(7) == 128 && Pow2(8) == 256;
    hide Pow2;
    PowerOfSum(8, 256, 7, 128);
    PowerOfSum(8, 256, 8, 256);
    PowerOfSum(16, 0x1_0000, 15, 0x8000);
    PowerOfSum(16, 0x1_0000, 16, 0x1_0000);
    PowerOfSum(32, 0x1_0000_0000, 31, 0x8000_0000);
    PowerOfSum(32, 0x1_0000_0000, 32, 0x1_0000_0000);
  }

  lemma PowerOfSum(a: nat, p: nat, b: nat, q: nat)
    requires Pow2(a) == p && Pow2(b) == q
    ensures Pow2(a + b) == p * q
  {
    Pow2Add(a, b);
  }

  /** A word as four blocks of four nibbles, least significant first. */
  datatype Nib = Nib(b0: bool, b1: bool, b2: bool, b3: bool)
  datatype Quad = Quad(n0: Nib, n1: Nib, n2: Nib, n3: Nib)
  datatype State = State(q0: Quad, q1: Quad, q2: Quad, q3: Quad)

  function NibOf(v: nat): Nib {
    Nib(v % 2 == 1, v / 2 % 2 == 1, v / 4 % 2 == 1, v / 8 % 2 == 1)
  }

  function QuadOf(v: nat): Quad {
    Quad(NibOf(v % 16), NibOf(v / 16 % 16), NibOf(v / 256 % 16), NibOf(v / 4096 % 16))
  }

  function StateOf(v: nat): State {
    State(QuadOf(v % 0x1_0000), QuadOf(v / 0x1_0000 % 0x1_0000), QuadOf(v / 0x1_0000_0000 % 0x1_0000),
          QuadOf(v / 0x1_0000_0000_0000 % 0x1_0000))
  }

  function NibBit(n: Nib, b: nat): bool {
    if b == 0 then n.b0 else if b == 1 then n.b1 else if b == 2 then n.b2 else n.b3
  }

  function QuadNib(q: Quad, i: nat): Nib {
    if i == 0 then q.n0 else if i == 1 then q.n1 else if i == 2 then q.n2 else q.n3
  }

  function StateQuad(s: State, i: nat): Quad {
    if i == 0 then s.q0 else if i == 1 then s.q1 else if i == 2 then s.q2 else s.q3
  }

  function StateNib(s: State, i: nat): Nib {
    QuadNib(StateQuad(s, i / 4), i % 4)
  }

  /** The word that a state stands for. */
  function WordOf(s: State): Word64 {
    seq(64, i requires 0 <= i < 64 => NibBit(StateNib(s, i / 4), i % 4))
  }

  lemma WordBit(s: State, i: nat, b: nat)
    requires i < 16 && b < 4
    ensures WordOf(s)[4 * i + b] == NibBit(StateNib(s, i), b)
  {
    assert (4 * i + b) / 4 == i && (4 * i + b) % 4 == b;
  }

  predicate SameAt(a: Word64, b: Word64, i: nat, x: nat)
    requires i < 16 && x < 4
  {
    a[4 * i + x] == b[4 * i + x]
  }

  /** Words are equal if they are nibble by nibble and bit by bit. */
  lemma SameWord(a: Word64, b: Word64)
    requires forall i, x :: 0 <= i < 16 && 0 <= x < 4 ==> SameAt(a, b, i, x)
    ensures a == b
  {
    forall y | 0 <= y < 64 ensures a[y] == b[y] {
      assert y == 4 * (y / 4) + y % 4;
      assert SameAt(a, b, y / 4, y % 4);
    }
  }

  function NibXor(a: Nib, b: Nib): Nib {
    Nib(a.b0 != b.b0, a.b1 != b.b1, a.b2 != b.b2, a.b3 != b.b3)
  }

  function QuadXor(a: Quad, b: Quad): Quad {
    Quad(NibXor(a.n0, b.n0), NibXor(a.n1, b.n1), NibXor(a.n2, b.n2), NibXor(a.n3, b.n3))
  }

  function StateXor(a: State, b: State): State {
    State(QuadXor(a.q0, b.q0), QuadXor(a.q1, b.q1), QuadXor(a.q2, b.q2), QuadXor(a.q3, b.q3))
  }

  lemma XorAgrees(a: State, b: State)
    ensures WordOf(StateXor(a, b)) == Xor(WordOf(a), WordOf(b))
  {
    hide WordOf;
    var c, d: Word64 := WordOf(StateXor(a, b)), Xor(WordOf(a), WordOf(b));
    forall i, x | 0 <= i < 16 && 0 <= x < 4 ensures SameAt(c, d, i, x) { XorBitAgrees(a, b, i, x); }
    SameWord(c, d);
  }

  lemma XorBitAgrees(a: State, b: State, i: nat, x: nat)
    requires i < 16 && x < 4
    ensures SameAt(WordOf(StateXor(a, b)), Xor(WordOf(a), WordOf(b)), i, x)
  {
    hide WordOf;
    WordBit(StateXor(a, b), i, x);
    WordBit(a, i, x);
    WordBit(b, i, x);
    NibsXored(a, b, i);
    hide StateNib;
  }

  lemma NibsXored(a: State, b: State, i: nat)
    requires i < 16
    ensures StateNib(StateXor(a, b), i) == NibXor(StateNib(a, i), StateNib(b, i))
  {
    hide NibXor;
  }

  // ---- numbers ----

  lemma NibOfBit(v: nat, b: nat)
    requires b < 4
    ensures NibBit(NibOf(v), b) == Bit(v, b)
  {
    FourBits(v, b);
  }

  lemma MaskBit(mask: nat, q: nat, b: nat)
    requires q < 4 && b < 4
    ensures NibBit(QuadNib(QuadOf(mask), q), b) == Bit(mask, 4 * q + b)
  {
    hide Bit;
    var d := if q == 0 then mask else if q == 1 then mask / 16 else if q == 2 then mask / 256 else mask / 4096;
    DigitAt(mask, q, b);
    NibOfBit(d % 16, b);
  }

  lemma DigitAt(v: nat, q: nat, b: nat)
    requires q < 4 && b < 4
    ensures var d := if q == 0 then v else if q == 1 then v / 16 else if q == 2 then v / 256 else v / 4096;
            Bit(d % 16, b) == Bit(v, 4 * q + b)
  {
    assert Pow2(0) == 1 && Pow2(4) == 16 && Pow2(8) == 256 && Pow2(12) == 4096;
    hide Pow2, Bit;
    if q == 0 { DigitFrom(v, 0, 1, v, 0, b); }
    else if q == 1 { DigitFrom(v, 4, 16, v / 16, v % 16, b); }
    else if q == 2 { DigitFrom(v, 8, 256, v / 256, v % 256, b); }
    else { DigitFrom(v, 12, 4096, v / 4096, v % 4096, b); }
  }

  lemma DigitFrom(v: nat, n: nat, p: nat, q: nat, rest: nat, b: nat)
    requires Pow2(n) == p && v == rest + p * q && rest < p && Pow2(4) == 16 && b < 4
    ensures Bit(q % 16, b) == Bit(v, n + b)
  {
    hide Pow2, Bit;
    JoinedBits(rest, n, q, n + b);
    JoinedBits(q % 16, 4, q / 16, b);
    assert q == q % 16 + 16 * (q / 16);
  }

  lemma QuadIs(v: nat, blk: nat)
    requires blk < 4
    ensures StateQuad(StateOf(v), blk) ==
            QuadOf(v / (if blk == 0 then 1 else if blk == 1 then 0x1_0000 else if blk == 2 then 0x1_0000_0000
                        else 0x1_0000_0000_0000) % 0x1_0000)
  {
    hide QuadOf;
  }

  lemma BlockDigits(v: nat, blk: nat, x: nat)
    requires blk < 4 && x < 16
    ensures var p := if blk == 0 then 1 else if blk == 1 then 0x1_0000 else if blk == 2 then 0x1_0000_0000
                     else 0x1_0000_0000_0000;
            Bit(v / p % 0x1_0000, x) == Bit(v, 16 * blk + x)
  {
    assert Pow2(0) == 1 && Pow2(8) == 256;
    hide Pow2, Bit;
    PowerOfSum(8, 256, 8, 256);
    PowerOfSum(16, 0x1_0000, 16, 0x1_0000);
    PowerOfSum(32, 0x1_0000_0000, 16, 0x1_0000);
    if blk == 0 { BlockFrom(v, 0, 1, v, 0, x); }
    else if blk == 1 { BlockFrom(v, 16, 0x1_0000, v / 0x1_0000, v % 0x1_0000, x); }
    else if blk == 2 { BlockFrom(v, 32, 0x1_0000_0000, v / 0x1_0000_0000, v % 0x1_0000_0000, x); }
    else { BlockFrom(v, 48, 0x1_0000_0000_0000, v / 0x1_0000_0000_0000, v % 0x1_0000_0000_0000, x); }
  }

  lemma BlockFrom(v: nat, n: nat, p: nat, q: nat, rest: nat, x: nat)
    requires Pow2(n) == p && v == rest + p * q && rest < p && Pow2(16) == 0x1_0000 && x < 16
    ensures Bit(q % 0x1_0000, x) == Bit(v, n + x)
  {
    hide Pow2, Bit;
    JoinedBits(rest, n, q, n + x);
    JoinedBits(q % 0x1_0000, 16, q / 0x1_0000, x);
    assert q == q % 0x1_0000 + 0x1_0000 * (q / 0x1_0000);
  }

  lemma NumberAgrees(v: nat)
    ensures FromNat(v, 64) == WordOf(StateOf(v))
  {
    hide WordOf, StateOf;
    var c, d := WordOf(StateOf(v)), FromNat(v, 64);
    forall i, x | 0 <= i < 16 && 0 <= x < 4 ensures SameAt(c, d, i, x) {
      WordBit(StateOf(v), i, x);
      QuadIs(v, i / 4);
      var w := v / (if i / 4 == 0 then 1 else if i / 4 == 1 then 0x1_0000 else if i / 4 == 2 then 0x1_0000_0000
                    else 0x1_0000_0000_0000) % 0x1_0000;
      MaskBit(w, i % 4, x);
      BlockDigits(v, i / 4, 4 * (i % 4) + x);
      assert 16 * (i / 4) + (4 * (i % 4) + x) == 4 * i + x;
    }
    SameWord(c, d);
  }

  // ---- digits ----

  const H0: Nib := Nib(false, false, false, false)
  const H1: Nib := Nib(true, false, false, false)
  const H2: Nib := Nib(false, true, false, false)
  const H3: Nib := Nib(true, true, false, false)
  const H4: Nib := Nib(false, false, true, false)
  const H5: Nib := Nib(true, false, true, false)
  const H6: Nib := Nib(false, true, true, false)
  const H7: Nib := Nib(true, true, true, false)
  const H8: Nib := Nib(false, false, false, true)
  const H9: Nib := Nib(true, false, false, true)
  const HA: Nib := Nib(false, true, false, true)
  const HB: Nib := Nib(true, true, false, true)
  const HC: Nib := Nib(false, false, true, true)
  const HD: Nib := Nib(true, false, true, true)
  const HE: Nib := Nib(false, true, true, true)
  const HF: Nib := Nib(true, true, true, true)

  /** A state from its hexadecimal digits, most significant first. */
  function Hex(f: Nib, e: Nib, d: Nib, c: Nib, b: Nib, a: Nib, n9: Nib, n8: Nib,
               n7: Nib, n6: Nib, n5: Nib, n4: Nib, n3: Nib, n2: Nib, n1: Nib, n0: Nib): State {
    State(Quad(n0, n1, n2, n3), Quad(n4, n5, n6, n7), Quad(n8, n9, a, b), Quad(c, d, e, f))
  }

  lemma DigitsBack()
    ensures NibOf(0) == H0 && NibOf(1) == H1 && NibOf(2) == H2 && NibOf(3) == H3
    ensures NibOf(4) == H4 && NibOf(5) == H5 && NibOf(6) == H6 && NibOf(7) == H7
    ensures NibOf(8) == H8 && NibOf(9) == H9 && NibOf(10) == HA && NibOf(11) == HB
    ensures NibOf(12) == HC && NibOf(13) == HD && NibOf(14) == HE && NibOf(15) == HF
  {
  }

  lemma QuadOfDigits(a: nat, b: nat, c: nat, d: nat)
    requires a < 16 && b < 16 && c < 16 && d < 16
    ensures QuadOf(a + 16 * b + 256 * c + 4096 * d) == Quad(NibOf(a), NibOf(b), NibOf(c), NibOf(d))
  {
    var v := a + 16 * b + 256 * c + 4096 * d;
    FourParts(a, b, c, d, v);
    hide NibOf;
  }

  lemma FourParts(a: nat, b: nat, c: nat, d: nat, v: nat)
    requires a < 16 && b < 16 && c < 16 && d < 16 && v == a + 16 * b + 256 * c + 4096 * d
    ensures v % 16 == a && v / 16 % 16 == b && v / 256 % 16 == c && v / 4096 % 16 == d
  {
    assert v / 16 == b + 16 * c + 256 * d;
    assert v / 256 == c + 16 * d;
    assert v / 4096 == d;
  }

  lemma FourBlocks(a: nat, b: nat, c: nat, d: nat, v: nat)
    requires a < 0x1_0000 && b < 0x1_0000 && c < 0x1_0000 && d < 0x1_0000
    requires v == a + 0x1_0000 * b + 0x1_0000_0000 * c + 0x1_0000_0000_0000 * d
    ensures v % 0x1_0000 == a && v / 0x1_0000 % 0x1_0000 == b
    ensures v / 0x1_0000_0000 % 0x1_0000 == c && v / 0x1_0000_0000_0000 % 0x1_0000 == d
  {
    assert v / 0x1_0000 == b + 0x1_0000 * c + 0x1_0000_0000 * d;
    assert v / 0x1_0000_0000 == c + 0x1_0000 * d;
    assert v / 0x1_0000_0000_0000 == d;
  }

  lemma StateOfQuads(a: nat, b: nat, c: nat, d: nat)
    requires a < 0x1_0000 && b < 0x1_0000 && c < 0x1_0000 && d < 0x1_0000
    ensures StateOf(a + 0x1_0000 * b + 0x1_0000_0000 * c + 0x1_0000_0000_0000 * d) ==
            State(QuadOf(a), QuadOf(b), QuadOf(c), QuadOf(d))
  {
    hide QuadOf;
    FourBlocks(a, b, c, d, a + 0x1_0000 * b + 0x1_0000_0000 * c + 0x1_0000_0000_0000 * d);
  }
}
