/** PRINCE on numbers: the key schedule, and which part of the key is used where. */
module PrinceNumbers {
  import opened Bits
  import opened Hexadecimal
  import opened PrinceConstants
  import opened Prince

  // ---- the key schedule ----

  /** The upper half of a key. */
  function Upper(key: nat): nat {
    key / TWO64
  }

  function Lower(key: nat): nat {
    key % TWO64
  }

  /** The upper half rotated right by one, with its top bit added at the bottom. */
  function Rotated(k: nat): nat {
    BitXor(k % 2 * TWO63 + k / 2, k / TWO63)
  }

  lemma KeyHalves(key: Key)
    ensures ToNat(LowHalf(key)) == Lower(ToNat(key)) && ToNat(HighHalf(key)) == Upper(ToNat(key))
    ensures ToNat(key) == ToNat(LowHalf(key)) + TWO64 * ToNat(HighHalf(key))
  {
    hide ToNat, Pow2;
    Powers();
    ToNatCut(key, 64);
  }

  /** The last whitening key, bit by bit, from the number of the upper half. */
  lemma KeySchedule(k: Word64)
    ensures ToNat(K0Prime(k)) == Rotated(ToNat(k))
    ensures Bit(Rotated(ToNat(k)), 63) == (ToNat(k) % 2 == 1)
    ensures forall i :: 0 < i < 63 ==> Bit(Rotated(ToNat(k)), i) == Bit(ToNat(k), i + 1)
    ensures Bit(Rotated(ToNat(k)), 0) == (Bit(ToNat(k), 1) != Bit(ToNat(k), 63))
  {
    hide K0Prime, Rotated, ToNat, Pow2;
    var n := ToNat(k);
    RotatedBound(k);
    forall i | 0 <= i < 64 ensures K0Prime(k)[i] == Bit(Rotated(n), i) {
      RotatedBit(k, i);
      LastKeyBit(k, i);
    }
    ToNatBit(k, 0);
    RotatedBit(k, 63);
    forall i | 0 < i < 63 ensures Bit(Rotated(n), i) == Bit(n, i + 1) {
      RotatedBit(k, i);
      ToNatBit(k, i + 1);
    }
    RotatedBit(k, 0);
    ToNatBit(k, 1);
    ToNatBit(k, 63);
    assert K0Prime(k) == FromNat(Rotated(n), 64);
    ToFromNat(Rotated(n), 64);
  }

  lemma LastKeyBit(k: Word64, i: nat)
    requires i < 64
    ensures K0Prime(k)[i] == if i == 63 then k[0] else if i > 0 then k[i + 1] else k[1] != k[63]
  {
  }

  lemma RotatedBound(k: Word64)
    ensures Rotated(ToNat(k)) < Pow2(64)
  {
    hide ToNat, Pow2, BitXor;
    Powers();
    var n := ToNat(k);
    ToNatBound(k);
    BitXorBound(n % 2 * TWO63 + n / 2, n / TWO63, 64);
  }

  lemma RotatedBit(k: Word64, i: nat)
    requires i < 64
    ensures Bit(Rotated(ToNat(k)), i) == if i == 63 then k[0] else if i > 0 then k[i + 1] else k[1] != k[63]
  {
    hide ToNat, Pow2, Bit, BitXor;
    var n := ToNat(k);
    BitXorBit(n % 2 * TWO63 + n / 2, n / TWO63, i);
    RotationBit(k, i);
    TopBit(k, i);
  }

  lemma RotationBit(k: Word64, i: nat)
    requires i < 64
    ensures var n := ToNat(k); Bit(n % 2 * TWO63 + n / 2, i) == if i == 63 then k[0] else k[i + 1]
  {
    hide ToNat, Pow2;
    Powers();
    var n := ToNat(k);
    ToNatBound(k);
    ToNatBit(k, 0);
    JoinedBits(n / 2, 63, n % 2, i);
    if i < 63 {
      assert Bit(n / 2, i) == Bit(n, i + 1);
      ToNatBit(k, i + 1);
    }
  }

  lemma TopBit(k: Word64, i: nat)
    ensures Bit(ToNat(k) / TWO63, i) == (i == 0 && k[63])
  {
    hide ToNat, Pow2, Bit;
    Powers();
    JoinedBits(ToNat(k) % TWO63, 63, ToNat(k) / TWO63, i + 63);
    ToNatBit(k, i + 63);
  }

  // ---- the cipher ----

  /** Rounds 1 to h: odd rounds use the upper half of the key. */
  function Forward(key: nat, h: nat, x: Word64): Word64
    requires h <= 5
  {
    if h == 0 then x
    else FwdRound(RoundConst(h), FromNat(if h % 2 == 1 then Upper(key) else Lower(key), 64), Forward(key, h - 1, x))
  }

  /** Rounds r to 10: odd rounds use the lower half. */
  function Backward(key: nat, r: nat, x: Word64): Word64
    requires 6 <= r <= 11
    decreases 11 - r
  {
    if r == 11 then x
    else
      var k := if r % 2 == 1 then Lower(key) else Upper(key);
      Backward(key, r + 1, InvRound(RoundConst(r), FromNat(k, 64), x))
  }

  /** The cipher with its whitening and its choice of round keys on numbers. */
  function Cipher(data: nat, key: nat, h: nat): nat
    requires h <= 5
  {
    var x := FromNat(BitXor(BitXor(data, Upper(key)), Lower(key)), 64);
    var y := ToNat(Backward(key, 11 - h, Middle(Forward(key, h, x))));
    BitXor(BitXor(BitXor(y, ROUND_CONSTS[11]), Lower(key)), Rotated(Upper(key)))
  }

  lemma {:induction false} ForwardIs(key: Key, h: nat, x: Word64)
    requires h <= 5
    ensures Forward(ToNat(key), h, x) == FwdRounds(HighHalf(key), LowHalf(key), h, x)
  {
    hide FwdRound, RoundConst, Upper, Lower, HighHalf, LowHalf;
    if h > 0 {
      ForwardIs(key, h - 1, x);
      KeyHalves(key);
      FromToNat(LowHalf(key));
      FromToNat(HighHalf(key));
    }
  }

  lemma {:induction false} BackwardIs(key: Key, h: nat, x: Word64)
    requires h <= 5
    ensures Backward(ToNat(key), 11 - h, x) == InvRounds(HighHalf(key), LowHalf(key), h, x)
  {
    hide InvRound, RoundConst, Upper, Lower, HighHalf, LowHalf;
    if h > 0 {
      KeyHalves(key);
      FromToNat(LowHalf(key));
      FromToNat(HighHalf(key));
      BackwardIs(key, h - 1, InvRound(RoundConst(11 - h), RoundKey(HighHalf(key), LowHalf(key), h), x));
    }
  }

  lemma XorInNumbers(a: Word64, b: Word64)
    ensures ToNat(Xor(a, b)) == BitXor(ToNat(a), ToNat(b))
  {
    ToNatBound(a);
    ToNatBound(b);
    FromToNat(a);
    FromToNat(b);
    XorOfNumbers(ToNat(a), ToNat(b), 64);
    BitXorBound(ToNat(a), ToNat(b), 64);
    ToFromNat(BitXor(ToNat(a), ToNat(b)), 64);
  }

  lemma ConstInNumbers(r: nat)
    requires r < 12
    ensures ToNat(RoundConst(r)) == ROUND_CONSTS[r]
  {
    hide Pow2;
    Powers();
    ToFromNat(ROUND_CONSTS[r], 64);
  }

  /** Encryption in terms of numbers: which halves of the key are added where and used in which round. */
  lemma EncryptInNumbers(data: Word64, key: Key, h: nat)
    requires h <= 5
    ensures ToNat(Encrypt(data, key, h)) == Cipher(ToNat(data), ToNat(key), h)
  {
    hide K0Prime, Forward, Backward, FwdRounds, InvRounds, Middle, RoundConst, Upper, Lower, Rotated, FromNat, ToNat,
         BitXor, HighHalf, LowHalf, Pow2;
    var k1, k0 := LowHalf(key), HighHalf(key);
    KeyHalves(key);
    KeySchedule(k0);
    RoundConstZero();
    var x: Word64 := Xor(Xor(data, k0), k1);
    assert Xor(x, RoundConst(0)) == x;
    XorInNumbers(data, k0);
    XorInNumbers(Xor(data, k0), k1);
    FromToNat(x);
    ForwardIs(key, h, x);
    BackwardIs(key, h, Middle(FwdRounds(k0, k1, h, x)));
    var y: Word64 := Core(k0, k1, h, x);
    ConstInNumbers(11);
    XorInNumbers(y, RoundConst(11));
    XorInNumbers(Xor(y, RoundConst(11)), k1);
    XorInNumbers(Xor(Xor(y, RoundConst(11)), k1), K0Prime(k0));
  }
}
