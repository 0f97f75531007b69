/** Flash words on numbers: what the scrambling mask is made of, and which check bits are kept. */
module FlashNumbers {
  import opened Bits
  import opened SecdedCode
  import opened SecdedTheorem
  import opened HammingCode
  import opened SecdedSoftware
  import opened Hexadecimal
  import opened Prince
  import opened PrinceNumbers
  import opened Flash

  const TWO16: nat := 0x1_0000
  const TWO48: nat := 0x1_0000_0000_0000
  const TWO68: nat := 0x10_0000_0000_0000_0000

  /** The upper factor: the address, and above it the low 48 bits of the upper key half. */
  function Tweak(addrKey: nat, addr: nat): nat {
    Upper(addrKey) % TWO48 * TWO16 + addr
  }

  lemma WordPowers()
    ensures Pow2(16) == TWO16 && Pow2(48) == TWO48 && Pow2(68) == TWO68
  {
    assert Pow2(4) == 16 && Pow2(8) == 256;
    hide Pow2;
    Powers();
    PowerOfSum(8, 256, 8, 256);
    PowerOfSum(16, TWO16, 16, TWO16);
    PowerOfSum(32, 0x1_0000_0000, 16, TWO16);
    PowerOfSum(64, TWO64, 4, 16);
  }

  /** An address that fits is added below the shifted key bits. */
  lemma OrIsSum(x: nat, addr: nat)
    requires addr < TWO16
    ensures BitOr(x * TWO16, addr) == x * TWO16 + addr
  {
    WordPowers();
    hide Pow2;
    var a, b, n := BitOr(x * TWO16, addr), x * TWO16 + addr, x * TWO16 + addr + TWO16;
    Pow2Exceeds(n);
    BitOrBound(x * TWO16, addr, n);
    forall i | 0 <= i < n ensures Bit(a, i) == Bit(b, i) {
      BitOrBit(x * TWO16, addr, i);
      JoinedBits(addr, 16, x, i);
      JoinedBits(0, 16, x, i);
      if i < 16 { HighBits(0, 0, i); } else { HighBits(addr, 16, i); }
    }
    SameBits(a, b, n);
  }

  /** The two factors of the mask. */
  lemma MaskFactors(addr: nat, addrKey: Key, gf: GfMultiply)
    requires addr < TWO16
    ensures XexMask(addr, addrKey, gf) == gf(Tweak(ToNat(addrKey), addr), Lower(ToNat(addrKey)))
  {
    hide ToNat, Pow2, BitOr;
    WordPowers();
    Powers();
    KeyHalves(addrKey);
    var high, middle := addrKey[64..], addrKey[64..112];
    assert high[..48] == middle && addrKey[..64] == LowHalf(addrKey) && high == HighHalf(addrKey);
    ToNatCut(high, 48);
    ToNatJoin(Zeros(16), middle);
    ToNatZeros(16);
    OrIsSum(ToNat(middle), addr);
  }

  lemma {:induction false} ToNatZeros(n: nat)
    ensures ToNat(Zeros(n)) == 0
  {
    if n > 0 {
      assert Zeros(n)[..n - 1] == Zeros(n - 1);
      ToNatZeros(n - 1);
    }
  }

  /** Where multiplying by the lower key half loses nothing, words at different addresses have different masks. */
  lemma MasksDiffer(a: nat, b: nat, addrKey: Key, gf: GfMultiply)
    requires a < TWO16 && b < TWO16 && a != b
    requires forall x, y :: gf(x, Lower(ToNat(addrKey))) == gf(y, Lower(ToNat(addrKey))) ==> x == y
    ensures XexMask(a, addrKey, gf) != XexMask(b, addrKey, gf)
  {
    hide XexMask;
    MaskFactors(a, addrKey, gf);
    MaskFactors(b, addrKey, gf);
  }

  /** Scrambling: the mask is added before and after encryption. */
  lemma ScrambleInNumbers(data: Word64, addr: nat, addrKey: Key, dataKey: Key, gf: GfMultiply)
    ensures var mask := ToNat(XexMask(addr, addrKey, gf));
            ToNat(XexScramble(data, addr, addrKey, dataKey, gf)) ==
            BitXor(Cipher(BitXor(ToNat(data), mask), ToNat(dataKey), 5), mask)
  {
    hide ToNat, XexMask, Encrypt, Cipher, BitXor;
    var mask := XexMask(addr, addrKey, gf);
    XorInNumbers(data, mask);
    EncryptInNumbers(Xor(data, mask), dataKey, 5);
    XorInNumbers(Encrypt(Xor(data, mask), dataKey, 5), mask);
  }

  /** The stored word: the data, scrambled if wanted, below the integrity bits, and above these the check bits. */
  lemma StoredInNumbers(cfg: Configs, addr: nat, data: Word64, gf: GfMultiply)
    ensures var mask := ToNat(XexMask(addr, cfg.addrKey, gf));
            var payload := if cfg.scramblingEnabled then
                             BitXor(Cipher(BitXor(ToNat(data), mask), ToNat(cfg.dataKey), 5), mask)
                           else ToNat(data);
            ToNat(StoredWord(cfg, addr, data, gf)) % TWO68 == payload + TWO64 * ToNat(Integrity(data))
  {
    hide ToNat, XexMask, XexScramble, Cipher, BitXor, Hamming8, Integrity, Pow2;
    WordPowers();
    Powers();
    var payload := if cfg.scramblingEnabled then XexScramble(data, addr, cfg.addrKey, cfg.dataKey, gf) else data;
    ScrambleInNumbers(data, addr, cfg.addrKey, cfg.dataKey, gf);
    var kept, w := payload + Integrity(data), StoredWord(cfg, addr, data, gf);
    Hamming8KeepsData(kept);
    ToNatCut(w, 68);
    assert w[..68] == kept;
    ToNatJoin(payload, Integrity(data));
  }

  // ---- integrity bits ----

  /** Of the codeword of the data, the low 68 bits are kept. */
  lemma IntegrityKept(data: Word64)
    ensures ToNat(data + Integrity(data)) == ToNat(Hamming8(data)) % TWO68
  {
    hide ToNat, Hamming8, Pow2;
    WordPowers();
    Hamming8KeepsData(data);
    var c := Hamming8(data);
    assert c[..68] == c[..64] + c[64..68];
    ToNatCut(c, 68);
  }

  /** Check bit j of four is the parity of the data bits whose position in the codeword has bit j set. */
  lemma IntegrityBits(data: Word64, j: nat)
    requires j < 4
    ensures |DataPositions(72)| == 64
    ensures Integrity(data)[j] == PositionsParity(data, j, 64)
  {
    hide HammingCodes, Encode, DataPositions, Mask, Bit, ValidTuple, Parity, PositionsParity;
    FlashLayouts();
    LayoutCount(64, 8);
    HammingCodesValid(64, 8);
    HammingCausal(64, 8);
    var codes := HammingCodes(64, 8);
    HwEncodeBits(64, 8, codes, false, data);
    var plain := Encode(64, 8, codes, false, data);
    assert Integrity(data)[j] == plain[64 + j];
    forall i: nat ensures Bit(Mask(codes, j), i) == (i < 64 && Bit(DataPositions(72)[i], j)) { RowBit(i, j); }
    assert data[..64] == data;
    DataOnly(data, plain, Mask(codes, j));
    ParityOfPositions(data, Mask(codes, j), j, 64);
  }

  lemma DataOnly(data: Word64, w: Word, mask: nat)
    requires |w| == 72 && w[..64] == data && forall i: nat :: Bit(mask, i) ==> i < 64
    ensures Parity(data, mask) == Parity(w, mask)
  {
    hide Bit, Parity;
    forall i | 0 <= i < 64 ensures data[i] == w[i] { assert w[..64][i] == w[i]; }
    ParityAgree(data, w, mask, mask);
  }

  lemma RowBit(i: nat, j: nat)
    requires j < 4 && |DataPositions(72)| == 64
    ensures Bit(Mask(HammingCodes(64, 8), j), i) == (i < 64 && Bit(DataPositions(72)[i], j))
  {
    hide HammingCodes, DataPositions, Mask, Bit, ValidTuple;
    HammingCodesValid(64, 8);
    SecdedCode.MaskBit(HammingCodes(64, 8), j, i);
    if i < |HammingCodes(64, 8)| { HammingTuple(64, 8, i); }
  }

  lemma {:induction false} ParityOfPositions(data: Word64, mask: nat, j: nat, n: nat)
    requires n <= 64 && |DataPositions(72)| == 64
    requires forall i: nat :: i < 64 ==> Bit(mask, i) == Bit(DataPositions(72)[i], j)
    ensures Parity(data[..n], mask) == PositionsParity(data, j, n)
  {
    hide DataPositions, Bit;
    if n > 0 {
      ParityOfPositions(data, mask, j, n - 1);
      assert data[..n][..n - 1] == data[..n - 1];
    }
  }

  function PositionsParity(data: Word64, j: nat, n: nat): bool
    requires n <= 64
  {
    if n == 0 then false
    else PositionsParity(data, j, n - 1) !=
         (data[n - 1] && n <= |DataPositions(72)| && Bit(DataPositions(72)[n - 1], j))
  }
}
