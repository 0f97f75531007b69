/** The PRINCE cipher of the memory scrambling scripts, on 64-bit words, and its alpha reflection. */
module Prince {
  import opened Bits
  import opened Hexadecimal
  import opened PrinceConstants

  const SBOX4: seq<nat> := [
    0xb, 0xf, 0x3, 0x2,
    0xa, 0xc, 0x9, 0x1,
    0x6, 0x7, 0x8, 0x0,
    0xe, 0x5, 0xd, 0x4
  ]

  const SBOX4_INV: seq<nat> := [
    0xb, 0x7, 0x3, 0x2,
    0xf, 0xd, 0x8, 0x9,
    0xa, 0x6, 0x4, 0x0,
    0x5, 0xe, 0xc, 0x1
  ]

  const SHIFT_ROWS64: seq<nat> := [
    0x4, 0x9, 0xe, 0x3,
    0x8, 0xd, 0x2, 0x7,
    0xc, 0x1, 0x6, 0xb,
    0x0, 0x5, 0xa, 0xf
  ]

  const SHIFT_ROWS64_INV: seq<nat> := [
    0xc, 0x9, 0x6, 0x3,
    0x0, 0xd, 0xa, 0x7,
    0x4, 0x1, 0xe, 0xb,
    0x8, 0x5, 0x2, 0xf
  ]

  const SHIFT_ROWS_CONSTS: seq<nat> := [0x7bde, 0xbde7, 0xde7b, 0xe7bd]

  /** `ret | (v << s)` within the width of ret. */
  function OrShifted(ret: Word, v: Word, s: nat): (r: Word)
    ensures |r| == |ret|
  {
    seq(|ret|, b requires 0 <= b < |ret| => ret[b] || (s <= b < s + |v| && v[b - s]))
  }

  // ---- the substitution layer ----

  predicate Table(coeffs: seq<nat>) {
    |coeffs| == 16 && forall v :: 0 <= v < 16 ==> coeffs[v] < 16
  }

  /** `(data >> (4 * i)) & 0xf` */
  function Nibble(data: Word, i: nat): (n: Word)
    requires 4 * i + 4 <= |data|
    ensures |n| == 4
  {
    data[4 * i..4 * i + 4]
  }

  lemma NibbleValue(n: Word)
    requires |n| == 4
    ensures ToNat(n) < 16
    ensures FromNat(ToNat(n), 4) == n
  {
    ToNatBound(n);
    assert Pow2(4) == 16;
    forall i | 0 <= i < 4 ensures Bit(ToNat(n), i) == n[i] { ToNatBit(n, i); }
  }

  lemma ValueNibble(v: nat)
    requires v < 16
    ensures ToNat(FromNat(v, 4)) == v
  {
    var w := FromNat(v, 4);
    ToNatBound(w);
    assert Pow2(4) == 16;
    if ToNat(w) != v {
      var j := DifferingBit(ToNat(w), v, 4);
      ToNatBit(w, j);
      assert false;
    }
  }

  function SubNibble(n: Word, coeffs: seq<nat>): (r: Word)
    requires |n| == 4 && Table(coeffs)
    ensures |r| == 4
  {
    NibbleValue(n);
    FromNat(coeffs[ToNat(n)], 4)
  }

  /** Every whole nibble substituted, leftover bits kept. */
  function Sbox(data: Word, coeffs: seq<nat>): (r: Word)
    requires Table(coeffs)
    ensures |r| == |data|
  {
    seq(|data|, b requires 0 <= b < |data| =>
      if b < 4 * (|data| / 4) then SubNibble(Nibble(data, b / 4), coeffs)[b % 4] else data[b])
  }

  method RunSbox(data: Word, coeffs: seq<nat>) returns (ret: Word)
    requires Table(coeffs)
    ensures ret == Sbox(data, coeffs)
  {
    var width := |data|;
    ret := seq(width, b requires 0 <= b < width => b >= 4 * (width / 4) && data[b]);
    for i := 0 to width / 4
      invariant |ret| == width
      invariant forall b :: 0 <= b < width ==>
        ret[b] == if b < 4 * i || b >= 4 * (width / 4) then Sbox(data, coeffs)[b] else false
    {
      var nibble := Nibble(data, i);
      NibbleValue(nibble);
      ret := OrShifted(ret, FromNat(coeffs[ToNat(nibble)], 4), 4 * i);
    }
  }

  ghost predicate InverseTables(a: seq<nat>, b: seq<nat>) {
    Table(a) && Table(b) && forall v :: 0 <= v < 16 ==> b[a[v]] == v
  }

  lemma SboxValues()
    ensures Table(SBOX4) && Table(SBOX4_INV)
    ensures forall v :: 0 <= v < 16 ==> SBOX4_INV[SBOX4[v]] == v
  {
    var a, b := SBOX4, SBOX4_INV;
    assert a[0] == 0xb && a[1] == 0xf && a[2] == 0x3 && a[3] == 0x2;
    assert a[4] == 0xa && a[5] == 0xc && a[6] == 0x9 && a[7] == 0x1;
    assert a[8] == 0x6 && a[9] == 0x7 && a[10] == 0x8 && a[11] == 0x0;
    assert a[12] == 0xe && a[13] == 0x5 && a[14] == 0xd && a[15] == 0x4;
    assert b[0xb] == 0 && b[0xf] == 1 && b[0x3] == 2 && b[0x2] == 3;
    assert b[0xa] == 4 && b[0xc] == 5 && b[0x9] == 6 && b[0x1] == 7;
    assert b[0x6] == 8 && b[0x7] == 9 && b[0x8] == 10 && b[0x0] == 11;
    assert b[0xe] == 12 && b[0x5] == 13 && b[0xd] == 14 && b[0x4] == 15;
  }

  lemma SboxInvValues()
    ensures forall v :: 0 <= v < 16 ==> 0 <= SBOX4_INV[v] < 16 && SBOX4[SBOX4_INV[v]] == v
  {
    var a, b := SBOX4_INV, SBOX4;
    assert a[0] == 0xb && a[1] == 0x7 && a[2] == 0x3 && a[3] == 0x2;
    assert a[4] == 0xf && a[5] == 0xd && a[6] == 0x8 && a[7] == 0x9;
    assert a[8] == 0xa && a[9] == 0x6 && a[10] == 0x4 && a[11] == 0x0;
    assert a[12] == 0x5 && a[13] == 0xe && a[14] == 0xc && a[15] == 0x1;
    assert b[0xb] == 0 && b[0x7] == 1 && b[0x3] == 2 && b[0x2] == 3;
    assert b[0xf] == 4 && b[0xd] == 5 && b[0x8] == 6 && b[0x9] == 7;
    assert b[0xa] == 8 && b[0x6] == 9 && b[0x4] == 10 && b[0x0] == 11;
    assert b[0x5] == 12 && b[0xe] == 13 && b[0xc] == 14 && b[0x1] == 15;
  }

  lemma TablesInvert()
    ensures InverseTables(SBOX4, SBOX4_INV) && InverseTables(SBOX4_INV, SBOX4)
  {
    SboxValues();
    SboxInvValues();
  }

  lemma SubNibbleInverts(n: Word, a: seq<nat>, b: seq<nat>)
    requires |n| == 4 && InverseTables(a, b)
    ensures SubNibble(SubNibble(n, a), b) == n
  {
    NibbleValue(n);
    ValueNibble(a[ToNat(n)]);
  }

  lemma SboxAt(data: Word, a: seq<nat>, i: nat, y: nat)
    requires Table(a) && 4 * i + 4 <= |data| && y < 4
    ensures Sbox(data, a)[4 * i + y] == SubNibble(Nibble(data, i), a)[y]
  {
    hide SubNibble, Nibble;
    assert (4 * i + y) / 4 == i && (4 * i + y) % 4 == y;
  }

  lemma SboxNibble(data: Word, a: seq<nat>, i: nat)
    requires Table(a) && 4 * i + 4 <= |data|
    ensures Nibble(Sbox(data, a), i) == SubNibble(Nibble(data, i), a)
  {
    hide Sbox, SubNibble;
    forall y | 0 <= y < 4 ensures Nibble(Sbox(data, a), i)[y] == SubNibble(Nibble(data, i), a)[y] {
      SboxAt(data, a, i, y);
    }
  }

  /** Substituting and substituting back is the identity at every width, leftover bits included. */
  lemma SboxInverts(data: Word, a: seq<nat>, b: seq<nat>)
    requires InverseTables(a, b)
    ensures Sbox(Sbox(data, a), b) == data
  {
    var s := Sbox(data, a);
    forall x | 0 <= x < |data| ensures Sbox(s, b)[x] == data[x] {
      if x < 4 * (|data| / 4) {
        var n := Nibble(data, x / 4);
        SboxNibble(data, a, x / 4);
        SubNibbleInverts(n, a, b);
        assert n[x % 4] == data[x];
      }
    }
  }

  // ---- the linear layer ----

  /** `prince_nibble_red16`: xor of the four nibbles. */
  function NibbleRed16(data: Word): (n: Word)
    requires |data| == 16
    ensures |n| == 4
  {
    seq(4, b requires 0 <= b < 4 => ((data[b] != data[4 + b]) != data[8 + b]) != data[12 + b])
  }

  function AndMask(w: Word, mask: nat): (r: Word)
    ensures |r| == |w|
  {
    seq(|w|, i requires 0 <= i < |w| => w[i] && Bit(mask, i))
  }

  /** Which shift-row constant a nibble of a block uses. */
  function ConstIndex(blk: nat, nibble: nat): (r: nat)
    requires nibble < 4
    ensures r < 4
  {
    ((if blk == 0 || blk == 3 then 0 else 1) + 3 - nibble) % 4
  }

  function Block(data: Word64, blk: nat): (r: Word)
    requires blk < 4
    ensures |r| == 16
  {
    data[16 * blk..16 * blk + 16]
  }

  function MultPrime(data: Word64): Word64 {
    seq(64, b requires 0 <= b < 64 =>
      NibbleRed16(AndMask(Block(data, b / 16), SHIFT_ROWS_CONSTS[ConstIndex(b / 16, b / 4 % 4)]))[b % 4])
  }

  method RunMultPrime(data: Word64) returns (ret: Word64)
    ensures ret == MultPrime(data)
  {
    hide MultPrime, ConstIndex, NibbleRed16, AndMask, Block;
    ret := Zeros(64);
    for blk := 0 to 4
      invariant forall b :: 0 <= b < 64 ==> ret[b] == (b < 16 * blk && MultPrime(data)[b])
    {
      var block := Block(data, blk);
      for nibbleIdx := 0 to 4
        invariant forall b :: 0 <= b < 64 ==> ret[b] == (b < 16 * blk + 4 * nibbleIdx && MultPrime(data)[b])
      {
        var nibble := NibbleRed16(AndMask(block, SHIFT_ROWS_CONSTS[ConstIndex(blk, nibbleIdx)]));
        var s := 16 * blk + 4 * nibbleIdx;
        forall b | s <= b < s + 4 ensures MultPrime(data)[b] == nibble[b - s] {
          MultPrimeAt(data, blk, nibbleIdx, b - s);
        }
        ret := OrShifted(ret, nibble, s);
      }
    }
  }

  lemma BitDown4(n: nat, i: nat)
    ensures Bit(n, i + 4) == Bit(n / 16, i)
  {
    assert Bit(n, i + 4) == Bit(n / 2, i + 3) == Bit(n / 2 / 2, i + 2) == Bit(n / 2 / 2 / 2, i + 1);
    assert n / 2 / 2 / 2 / 2 == n / 16;
  }

  lemma NibbleOfConstant(c: nat, q: nat, b: nat, v: nat)
    requires q < 4 && b < 4 && c < 0x10000
    requires v == (if q == 0 then c else if q == 1 then c / 16 else if q == 2 then c / 16 / 16
                   else c / 16 / 16 / 16) % 16
    ensures Bit(c, 4 * q + b) == Bit(v, b)
  {
    var d, e, f := c / 16, c / 16 / 16, c / 16 / 16 / 16;
    if q >= 1 { BitDown4(c, 4 * (q - 1) + b); }
    if q >= 2 { BitDown4(d, 4 * (q - 2) + b); }
    if q >= 3 { BitDown4(e, b); }
    var top := if q == 0 then c else if q == 1 then d else if q == 2 then e else f;
    assert Pow2(4) == 16;
    LowBits(v, 4, top / 16, b);
  }

  /** The constant r leaves one nibble out at each bit position: nibble q at bit b exactly when q = b + r. */
  lemma ConstantBits(r: nat, q: nat, b: nat)
    requires r < 4 && q < 4 && b < 4
    ensures Bit(SHIFT_ROWS_CONSTS[r], 4 * q + b) == (q != (b + r) % 4)
  {
    hide Bit, ConstantNibble;
    var missing := if q >= r then q - r else q + 4 - r;
    ConstantValue(r, q);
    NibbleOfConstant(SHIFT_ROWS_CONSTS[r], q, b, ConstantNibble(missing));
    NibbleBit(missing, b);
  }

  /** The nibble without one of its bits. */
  function ConstantNibble(missing: nat): nat {
    if missing == 0 then 0xe else if missing == 1 then 0xd else if missing == 2 then 0xb else 0x7
  }

  lemma NibbleBit(missing: nat, b: nat)
    requires missing < 4 && b < 4
    ensures Bit(ConstantNibble(missing), b) == (b != missing)
  {
    hide Bit;
    FourBits(ConstantNibble(missing), b);
  }

  lemma ConstantValue(r: nat, q: nat)
    requires r < 4 && q < 4
    ensures var c := SHIFT_ROWS_CONSTS[r];
            c < 0x10000 && ConstantNibble(if q >= r then q - r else q + 4 - r) ==
              (if q == 0 then c else if q == 1 then c / 16 else if q == 2 then c / 16 / 16 else c / 16 / 16 / 16) % 16
  {
    var c := SHIFT_ROWS_CONSTS[r];
    assert c == if r == 0 then 0x7bde else if r == 1 then 0xbde7 else if r == 2 then 0xde7b else 0xe7bd;
    var d: nat := if r == 0 then 0x7bd else if r == 1 then 0xbde else if r == 2 then 0xde7 else 0xe7b;
    var e: nat := if r == 0 then 0x7b else if r == 1 then 0xbd else if r == 2 then 0xde else 0xe7;
    assert c / 16 == d;
    assert d / 16 == e;
  }

  /** One output bit of a block: the xor of its column without one nibble. */
  lemma BlockBit(block: Word, r: nat, b: nat)
    requires |block| == 16 && r < 4 && b < 4
    ensures NibbleRed16(AndMask(block, SHIFT_ROWS_CONSTS[r]))[b] ==
            (NibbleRed16(block)[b] != block[4 * ((b + r) % 4) + b])
  {
    ConstantBits(r, 0, b);
    ConstantBits(r, 1, b);
    ConstantBits(r, 2, b);
    ConstantBits(r, 3, b);
  }

  /** The nibble left out of output nibble n at bit b; for fixed b this is a reflection of 0..3. */
  function LeftOut(blk: nat, n: nat, b: nat): (q: nat)
    requires n < 4 && b < 4
    ensures q < 4
  {
    (b + ConstIndex(blk, n)) % 4
  }

  lemma MultPrimeAt(data: Word64, blk: nat, n: nat, b: nat)
    requires blk < 4 && n < 4 && b < 4
    ensures MultPrime(data)[16 * blk + 4 * n + b]
         == NibbleRed16(AndMask(Block(data, blk), SHIFT_ROWS_CONSTS[ConstIndex(blk, n)]))[b]
  {
    hide NibbleRed16, AndMask, ConstIndex, Block;
    var x := 16 * blk + 4 * n + b;
    assert x / 16 == blk && x / 4 % 4 == n && x % 4 == b;
  }

  /** Output bit b of nibble n of a block. */
  lemma MultPrimeBit(data: Word64, blk: nat, n: nat, b: nat)
    requires blk < 4 && n < 4 && b < 4
    ensures Block(MultPrime(data), blk)[4 * n + b]
         == (NibbleRed16(Block(data, blk))[b] != Block(data, blk)[4 * LeftOut(blk, n, b) + b])
  {
    hide MultPrime, NibbleRed16, AndMask, ConstIndex;
    MultPrimeAt(data, blk, n, b);
    BlockBit(Block(data, blk), ConstIndex(blk, n), b);
    var m := MultPrime(data);
    assert Block(m, blk)[4 * n + b] == m[16 * blk + 4 * n + b];
  }

  lemma LeftOutValue(blk: nat, n: nat, b: nat)
    requires n < 4 && b < 4
    ensures var t := b + (if blk == 0 || blk == 3 then 3 else 4) - n;
            LeftOut(blk, n, b) == if t >= 4 then t - 4 else t
  {
  }

  /** The first three rows of a column determine the reflection. */
  lemma LeftOutReflects(blk: nat, n: nat, b: nat)
    requires n < 4 && b < 4
    ensures LeftOut(blk, LeftOut(blk, n, b), b) == n
    ensures var z := LeftOut(blk, 0, b);
            LeftOut(blk, n, b) == if z >= n then z - n else z + 4 - n
  {
    hide LeftOut;
    LeftOutValue(blk, n, b);
    LeftOutValue(blk, 0, b);
    LeftOutValue(blk, LeftOut(blk, n, b), b);
  }

  /** Adding up a column whose entries each miss one entry of another column, all different. */
  lemma ColumnSum(d: Word, o: Word, b: nat, z: nat)
    requires |d| == |o| == 16 && b < 4 && z < 4
    requires o[b] == (NibbleRed16(d)[b] != d[4 * z + b])
    requires o[4 + b] == (NibbleRed16(d)[b] != d[4 * (if z >= 1 then z - 1 else z + 3) + b])
    requires o[8 + b] == (NibbleRed16(d)[b] != d[4 * (if z >= 2 then z - 2 else z + 2) + b])
    requires o[12 + b] == (NibbleRed16(d)[b] != d[4 * (if z >= 3 then z - 3 else z + 1) + b])
    ensures NibbleRed16(o)[b] == NibbleRed16(d)[b]
  {
    if z == 0 {} else if z == 1 {} else if z == 2 {} else {}
  }

  lemma InvolutionBit(data: Word64, blk: nat, n: nat, b: nat)
    requires blk < 4 && n < 4 && b < 4
    ensures Block(MultPrime(MultPrime(data)), blk)[4 * n + b] == Block(data, blk)[4 * n + b]
  {
    hide MultPrime, ConstIndex, Block, NibbleRed16, LeftOut;
    var once := MultPrime(data);
    var d, o := Block(data, blk), Block(once, blk);
    var z, p := LeftOut(blk, 0, b), LeftOut(blk, n, b);
    forall i: nat | i < 4
      ensures o[4 * i + b] == (NibbleRed16(d)[b] != d[4 * (if z >= i then z - i else z + 4 - i) + b])
    {
      MultPrimeBit(data, blk, i, b);
      LeftOutReflects(blk, i, b);
    }
    assert o[4 * 0 + b] == o[b] && o[4 * 1 + b] == o[4 + b] && o[4 * 2 + b] == o[8 + b] && o[4 * 3 + b] == o[12 + b];
    ColumnSum(d, o, b, z);
    MultPrimeBit(once, blk, n, b);
    MultPrimeBit(data, blk, p, b);
    LeftOutReflects(blk, n, b);
  }

  /** The linear layer is its own inverse. */
  lemma MultPrimeInvolution(data: Word64)
    ensures MultPrime(MultPrime(data)) == data
  {
    hide MultPrime;
    var twice := MultPrime(MultPrime(data));
    forall x | 0 <= x < 64 ensures twice[x] == data[x] {
      var blk, n, b := x / 16, x / 4 % 4, x % 4;
      assert x == 16 * blk + (4 * n + b);
      InvolutionBit(data, blk, n, b);
      assert Block(twice, blk)[4 * n + b] == twice[16 * blk + (4 * n + b)];
      assert Block(data, blk)[4 * n + b] == data[16 * blk + (4 * n + b)];
    }
  }

  // ---- the row shifts ----

  function Shifts(inv: bool): seq<nat> {
    if inv then SHIFT_ROWS64_INV else SHIFT_ROWS64
  }

  lemma ShiftTables(inv: bool, i: nat)
    requires i < 16
    ensures |Shifts(inv)| == |Shifts(!inv)| == 16
    ensures Shifts(inv)[i] < 16 && Shifts(!inv)[i] < 16
    ensures Shifts(inv)[Shifts(!inv)[i]] == i
  {
    var a, b := SHIFT_ROWS64, SHIFT_ROWS64_INV;
    assert a[0] == 0x4 && a[1] == 0x9 && a[2] == 0xe && a[3] == 0x3;
    assert a[4] == 0x8 && a[5] == 0xd && a[6] == 0x2 && a[7] == 0x7;
    assert a[8] == 0xc && a[9] == 0x1 && a[10] == 0x6 && a[11] == 0xb;
    assert a[12] == 0x0 && a[13] == 0x5 && a[14] == 0xa && a[15] == 0xf;
    assert b[0] == 0xc && b[1] == 0x9 && b[2] == 0x6 && b[3] == 0x3;
    assert b[4] == 0x0 && b[5] == 0xd && b[6] == 0xa && b[7] == 0x7;
    assert b[8] == 0x4 && b[9] == 0x1 && b[10] == 0xe && b[11] == 0xb;
    assert b[12] == 0x8 && b[13] == 0x5 && b[14] == 0x2 && b[15] == 0xf;
  }

  function ShiftRows(data: Word64, inv: bool): Word64 {
    seq(64, b requires 0 <= b < 64 =>
      ShiftTables(inv, b / 4);
      data[4 * Shifts(inv)[b / 4] + b % 4])
  }

  lemma ShiftRowsBit(data: Word64, inv: bool, i: nat, b: nat)
    requires i < 16 && b < 4
    ensures |Shifts(inv)| == 16 && Shifts(inv)[i] < 16
    ensures ShiftRows(data, inv)[4 * i + b] == data[4 * Shifts(inv)[i] + b]
  {
    hide Shifts;
    ShiftTables(inv, i);
    assert (4 * i + b) / 4 == i && (4 * i + b) % 4 == b;
  }

  method RunShiftRows(data: Word64, inv: bool) returns (ret: Word64)
    ensures ret == ShiftRows(data, inv)
  {
    hide ShiftRows, Shifts;
    var shifts := Shifts(inv);
    ret := Zeros(64);
    for nibbleIdx := 0 to 16
      invariant forall b :: 0 <= b < 64 ==> ret[b] == (b < 4 * nibbleIdx && ShiftRows(data, inv)[b])
    {
      ShiftTables(inv, nibbleIdx);
      var nibble := Nibble(data, shifts[nibbleIdx]);
      forall b | 0 <= b < 4 ensures ShiftRows(data, inv)[4 * nibbleIdx + b] == nibble[b] {
        ShiftRowsBit(data, inv, nibbleIdx, b);
      }
      var next := OrShifted(ret, nibble, 4 * nibbleIdx);
      forall b | 0 <= b < 64 ensures next[b] == (b < 4 * (nibbleIdx + 1) && ShiftRows(data, inv)[b]) {
        if 4 * nibbleIdx <= b < 4 * nibbleIdx + 4 { assert b == 4 * nibbleIdx + (b - 4 * nibbleIdx); }
      }
      ret := next;
    }
  }

  /** The two shift tables undo each other. */
  lemma ShiftRowsInverts(data: Word64, inv: bool)
    ensures ShiftRows(ShiftRows(data, !inv), inv) == data
  {
    hide ShiftRows, Shifts;
    var s := ShiftRows(data, !inv);
    forall x | 0 <= x < 64 ensures ShiftRows(s, inv)[x] == data[x] {
      var i, b := x / 4, x % 4;
      assert x == 4 * i + b;
      ShiftTables(inv, i);
      ShiftTables(!inv, i);
      ShiftRowsBit(s, inv, i, b);
      ShiftRowsBit(data, !inv, Shifts(inv)[i], b);
      ShiftTables(!inv, Shifts(inv)[i]);
    }
  }

  // ---- rounds ----

  function RoundConst(r: nat): Word64
    requires r < 12
  {
    FromNat(ROUND_CONSTS[r], 64)
  }

  lemma ConstAgrees(r: nat)
    requires r < 12
    ensures RoundConst(r) == WordOf(ConstState(r))
  {
    hide WordOf, StateOf, FromNat;
    NumberAgrees(ROUND_CONSTS[r]);
  }

  /** The round constants are symmetric around alpha, the last one. */
  lemma AlphaSymmetry(r: nat)
    requires r < 12
    ensures Xor(RoundConst(r), RoundConst(11)) == RoundConst(11 - r)
  {
    hide WordOf, ConstState, RoundConst;
    ConstsSymmetric(r);
    ConstAgrees(r);
    ConstAgrees(11);
    ConstAgrees(11 - r);
    XorAgrees(ConstState(r), ConstState(11));
  }

  function FwdRound(rc: Word64, key: Word64, data: Word64): Word64 {
    TablesInvert();
    Xor(Xor(ShiftRows(MultPrime(Sbox(data, SBOX4)), false), rc), key)
  }

  function InvRound(rc: Word64, key: Word64, data: Word64): Word64 {
    TablesInvert();
    Sbox(MultPrime(ShiftRows(Xor(Xor(data, key), rc), true)), SBOX4_INV)
  }

  method RunFwdRound(rc: Word64, key: Word64, data: Word64) returns (ret: Word64)
    ensures ret == FwdRound(rc, key, data)
  {
    TablesInvert();
    ret := RunSbox(data, SBOX4);
    ret := RunMultPrime(ret);
    ret := RunShiftRows(ret, false);
    ret := Xor(ret, rc);
    ret := Xor(ret, key);
  }

  method RunInvRound(rc: Word64, key: Word64, data: Word64) returns (ret: Word64)
    ensures ret == InvRound(rc, key, data)
  {
    TablesInvert();
    ret := Xor(data, key);
    ret := Xor(ret, rc);
    ret := RunShiftRows(ret, true);
    ret := RunMultPrime(ret);
    ret := RunSbox(ret, SBOX4_INV);
  }

  /** The two kinds of round with the same constant and key undo each other, both ways. */
  lemma RoundsInvert(rc: Word64, key: Word64, data: Word64)
    ensures InvRound(rc, key, FwdRound(rc, key, data)) == data
    ensures FwdRound(rc, key, InvRound(rc, key, data)) == data
  {
    hide Sbox, MultPrime, ShiftRows;
    TablesInvert();
    var s: Word64 := Sbox(data, SBOX4);
    var m := MultPrime(s);
    var t := ShiftRows(m, false);
    XorCancel(Xor(t, rc), key);
    XorCancel(t, rc);
    ShiftRowsInverts(m, true);
    MultPrimeInvolution(s);
    SboxInverts(data, SBOX4, SBOX4_INV);
    var a := Xor(Xor(data, key), rc);
    var b := ShiftRows(a, true);
    SboxInverts(MultPrime(b), SBOX4_INV, SBOX4);
    MultPrimeInvolution(b);
    ShiftRowsInverts(a, false);
    XorCancel(Xor(data, key), rc);
    XorCancel(data, key);
  }

  /** Adding alpha to the key is the same as adding it to the round constant. */
  lemma AlphaToKey(r: nat, key: Word64, data: Word64)
    requires r < 12
    ensures FwdRound(RoundConst(r), Xor(key, RoundConst(11)), data) == FwdRound(RoundConst(11 - r), key, data)
    ensures InvRound(RoundConst(r), Xor(key, RoundConst(11)), data) == InvRound(RoundConst(11 - r), key, data)
  {
    hide Sbox, MultPrime, ShiftRows, RoundConst;
    TablesInvert();
    AlphaSymmetry(r);
    var rc, alpha := RoundConst(r), RoundConst(11);
    var x := ShiftRows(MultPrime(Sbox(data, SBOX4)), false);
    assert Xor(Xor(x, rc), Xor(key, alpha)) == Xor(Xor(x, Xor(rc, alpha)), key);
    assert Xor(Xor(data, Xor(key, alpha)), rc) == Xor(Xor(data, key), Xor(rc, alpha));
  }

  // ---- the cipher ----

  /** Round key of forward round r, and of the backward round 11 - r. */
  function RoundKey(k0: Word64, k1: Word64, r: nat): Word64 {
    if r % 2 == 1 then k0 else k1
  }

  /** Forward rounds 1..h. */
  function FwdRounds(k0: Word64, k1: Word64, h: nat, data: Word64): Word64
    requires h <= 5
  {
    if h == 0 then data else FwdRound(RoundConst(h), RoundKey(k0, k1, h), FwdRounds(k0, k1, h - 1, data))
  }

  /** Backward rounds 11-h..10. */
  function InvRounds(k0: Word64, k1: Word64, h: nat, data: Word64): Word64
    requires h <= 5
  {
    if h == 0 then data else InvRounds(k0, k1, h - 1, InvRound(RoundConst(11 - h), RoundKey(k0, k1, h), data))
  }

  function Middle(data: Word64): Word64 {
    TablesInvert();
    Sbox(MultPrime(Sbox(data, SBOX4)), SBOX4_INV)
  }

  function Core(k0: Word64, k1: Word64, h: nat, data: Word64): Word64
    requires h <= 5
  {
    InvRounds(k0, k1, h, Middle(FwdRounds(k0, k1, h, data)))
  }

  /** The core between its whitenings: `kin` and `kout` are added outside the first and last round keys. */
  function Whitened(kin: Word64, kout: Word64, k0: Word64, k1: Word64, h: nat, data: Word64): Word64
    requires h <= 5
  {
    var x := Core(k0, k1, h, Xor(Xor(Xor(data, kin), k1), RoundConst(0)));
    Xor(Xor(Xor(x, RoundConst(11)), k1), kout)
  }

  /** `((k0 & 1) << 63 | k0 >> 1) ^ (k0 >> 63)` */
  function K0Prime(k0: Word64): Word64 {
    Xor(k0[1..] + [k0[0]], [k0[63]] + Zeros(63))
  }

  type Key = k: Word | |k| == 128 witness Zeros(128)

  function LowHalf(key: Key): Word64 { key[..64] }

  function HighHalf(key: Key): Word64 { key[64..] }

  function Encrypt(data: Word64, key: Key, h: nat): Word64
    requires h <= 5
  {
    var k1, k0 := LowHalf(key), HighHalf(key);
    Whitened(k0, K0Prime(k0), k0, k1, h, data)
  }

  /** `prince`: data and keys xored in, rounds forward, middle layer, rounds backward, keys xored out. */
  method RunPrince(data: Word64, key: Key, h: nat) returns (ret: Word64)
    requires h <= 5
    ensures ret == Encrypt(data, key, h)
  {
    hide FwdRound, InvRound, RoundConst, Sbox, MultPrime, K0Prime;
    TablesInvert();
    var k1, k0 := LowHalf(key), HighHalf(key);
    var k0Prime := K0Prime(k0);
    ret := Xor(data, k0);
    ret := Xor(ret, k1);
    ret := Xor(ret, RoundConst(0));
    ghost var start := ret;
    for hri := 0 to h
      invariant ret == FwdRounds(k0, k1, hri, start)
    {
      var roundIdx := 1 + hri;
      var rk := if roundIdx % 2 == 1 then k0 else k1;
      ret := RunFwdRound(RoundConst(roundIdx), rk, ret);
    }
    ret := RunSbox(ret, SBOX4);
    ret := RunMultPrime(ret);
    ret := RunSbox(ret, SBOX4_INV);
    ghost var middle := ret;
    for hri := 0 to h
      invariant InvRounds(k0, k1, h - hri, ret) == InvRounds(k0, k1, h, middle)
    {
      var roundIdx := 11 - h + hri;
      var rk := if roundIdx % 2 == 1 then k1 else k0;
      ret := RunInvRound(RoundConst(roundIdx), rk, ret);
    }
    ret := Xor(ret, RoundConst(11));
    ret := Xor(ret, k1);
    ret := Xor(ret, k0Prime);
  }

  lemma MiddleInvolution(data: Word64)
    ensures Middle(Middle(data)) == data
  {
    hide Sbox, MultPrime;
    TablesInvert();
    var s: Word64 := Sbox(data, SBOX4);
    SboxInverts(MultPrime(s), SBOX4_INV, SBOX4);
    MultPrimeInvolution(s);
    SboxInverts(data, SBOX4, SBOX4_INV);
  }

  function Alpha(k: Word64): Word64 { Xor(k, RoundConst(11)) }

  lemma AlphaTwice(k: Word64)
    ensures Alpha(Alpha(k)) == k
  {
    XorCancel(k, RoundConst(11));
  }

  /** A backward round followed by the forward round of the reflected keys, and the other way round. */
  lemma ReflectedRounds(k0: Word64, k1: Word64, h: nat, data: Word64)
    requires 1 <= h <= 5
    ensures var f := (x: Word64) => FwdRound(RoundConst(h), RoundKey(Alpha(k0), Alpha(k1), h), x);
            f(InvRound(RoundConst(11 - h), RoundKey(k0, k1, h), data)) == data
    ensures InvRound(RoundConst(11 - h), RoundKey(Alpha(k0), Alpha(k1), h),
                     FwdRound(RoundConst(h), RoundKey(k0, k1, h), data)) == data
  {
    hide FwdRound, InvRound, RoundConst;
    var rk := RoundKey(k0, k1, h);
    assert RoundKey(Alpha(k0), Alpha(k1), h) == Alpha(rk);
    AlphaToKey(h, rk, InvRound(RoundConst(11 - h), rk, data));
    RoundsInvert(RoundConst(11 - h), rk, data);
    AlphaToKey(11 - h, rk, FwdRound(RoundConst(h), rk, data));
    RoundsInvert(RoundConst(h), rk, data);
  }

  lemma {:induction false} FwdUndoesInv(k0: Word64, k1: Word64, h: nat, data: Word64)
    requires h <= 5
    ensures FwdRounds(Alpha(k0), Alpha(k1), h, InvRounds(k0, k1, h, data)) == data
  {
    hide FwdRound, InvRound, RoundConst, Alpha, RoundKey;
    if h > 0 {
      var x := InvRound(RoundConst(11 - h), RoundKey(k0, k1, h), data);
      FwdUndoesInv(k0, k1, h - 1, x);
      ReflectedRounds(k0, k1, h, data);
    }
  }

  lemma {:induction false} InvUndoesFwd(k0: Word64, k1: Word64, h: nat, data: Word64)
    requires h <= 5
    ensures InvRounds(Alpha(k0), Alpha(k1), h, FwdRounds(k0, k1, h, data)) == data
  {
    hide FwdRound, InvRound, RoundConst, Alpha, RoundKey;
    if h > 0 {
      InvUndoesFwd(k0, k1, h - 1, data);
      ReflectedRounds(k0, k1, h, FwdRounds(k0, k1, h - 1, data));
    }
  }

  /** Alpha reflection of the core: the same core under reflected keys is its inverse. */
  lemma CoreReflection(k0: Word64, k1: Word64, h: nat, data: Word64)
    requires h <= 5
    ensures Core(Alpha(k0), Alpha(k1), h, Core(k0, k1, h, data)) == data
  {
    hide FwdRounds, InvRounds, Middle, Alpha;
    var f := FwdRounds(k0, k1, h, data);
    FwdUndoesInv(k0, k1, h, Middle(f));
    MiddleInvolution(f);
    InvUndoesFwd(k0, k1, h, data);
  }

  /** Swapping the whitenings and reflecting the round keys inverts the whitened cipher. */
  lemma WhitenedReflection(kin: Word64, kout: Word64, k0: Word64, k1: Word64, h: nat, data: Word64)
    requires h <= 5
    ensures Whitened(kout, kin, Alpha(k0), Alpha(k1), h, Whitened(kin, kout, k0, k1, h, data)) == data
  {
    hide Core, RoundConst, FromNat;
    var zero, alpha := RoundConst(0), RoundConst(11);
    RoundConstZero();
    var x: Word64 := Xor(Xor(Xor(data, kin), k1), zero);
    var y := Core(k0, k1, h, x);
    var c := Whitened(kin, kout, k0, k1, h, data);
    assert Xor(Xor(Xor(c, kout), Alpha(k1)), zero) == y;
    CoreReflection(k0, k1, h, x);
    assert Xor(Xor(Xor(x, alpha), Alpha(k1)), kin) == data;
  }

  lemma RoundConstZero()
    ensures RoundConst(0) == Zeros(64)
  {
    AlphaSymmetry(11);
    var a := RoundConst(11);
    assert Xor(a, a) == Zeros(64);
  }

  /** Decryption is the same cipher with the whitenings swapped and both round keys xored with alpha. */
  function Decrypt(data: Word64, key: Key, h: nat): Word64
    requires h <= 5
  {
    var k1, k0 := LowHalf(key), HighHalf(key);
    Whitened(K0Prime(k0), k0, Alpha(k0), Alpha(k1), h, data)
  }

  /** Main theorem: for every key and every number of rounds, decryption inverts encryption on both sides, so
      the cipher is a bijection on 64-bit words. */
  lemma PrinceBijective(data: Word64, key: Key, h: nat)
    requires h <= 5
    ensures Decrypt(Encrypt(data, key, h), key, h) == data
    ensures Encrypt(Decrypt(data, key, h), key, h) == data
  {
    hide Whitened, K0Prime, Alpha;
    var k1, k0 := LowHalf(key), HighHalf(key);
    WhitenedReflection(k0, K0Prime(k0), k0, k1, h, data);
    WhitenedReflection(K0Prime(k0), k0, Alpha(k0), Alpha(k1), h, data);
    AlphaTwice(k0);
    AlphaTwice(k1);
  }
}
