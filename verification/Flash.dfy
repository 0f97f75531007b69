/** A flash word on its way to storage: integrity code, scrambling, reliability code; and back. */
module Flash {
  import opened Bits
  import opened SecdedCode
  import opened SecdedTheorem
  import opened HammingCode
  import opened SecdedSoftware
  import opened Prince

  const WORD_SIZE := 64
  const INTEGRITY_ECC_SIZE := 4
  const PRINCE_NUM_HALF_ROUNDS := 5

  /** Multiplication in GF(2^64); only its result width matters here. */
  type GfMultiply = (nat, nat) -> Word64

  datatype Configs = Configs(scramblingEnabled: bool, addrKey: Key, dataKey: Key)

  // ---- scrambling ----

  /** The mask of a word address: one factor is the low 48 bits of the upper key half, shifted up, with the address
      below them; the other is the lower key half. */
  function XexMask(addr: nat, addrKey: Key, gf: GfMultiply): Word64 {
    gf(BitOr(ToNat(Zeros(16) + addrKey[64..112]), addr), ToNat(addrKey[..64]))
  }

  function XexScramble(data: Word64, addr: nat, addrKey: Key, dataKey: Key, gf: GfMultiply): Word64 {
    var mask := XexMask(addr, addrKey, gf);
    Xor(Encrypt(Xor(data, mask), dataKey, PRINCE_NUM_HALF_ROUNDS), mask)
  }

  function XexDescramble(data: Word64, addr: nat, addrKey: Key, dataKey: Key, gf: GfMultiply): Word64 {
    var mask := XexMask(addr, addrKey, gf);
    Xor(Decrypt(Xor(data, mask), dataKey, PRINCE_NUM_HALF_ROUNDS), mask)
  }

  /** Scrambling at an address is a bijection, whatever the multiplication does. */
  lemma ScrambleBijective(data: Word64, addr: nat, addrKey: Key, dataKey: Key, gf: GfMultiply)
    ensures XexDescramble(XexScramble(data, addr, addrKey, dataKey, gf), addr, addrKey, dataKey, gf) == data
    ensures XexScramble(XexDescramble(data, addr, addrKey, dataKey, gf), addr, addrKey, dataKey, gf) == data
  {
    hide XexMask, Encrypt, Decrypt;
    var mask := XexMask(addr, addrKey, gf);
    var x: Word64 := Xor(data, mask);
    PrinceBijective(x, dataKey, 5);
    XorCancel(Encrypt(x, dataKey, 5), mask);
    XorCancel(Decrypt(x, dataKey, 5), mask);
    XorCancel(data, mask);
  }

  // ---- the stored word ----

  /** The hardware codeword of a Hamming code with eight check bits. */
  function Hamming8(d: Word): (c: Word)
    ensures |c| == |d| + 8
  {
    Encode(|d|, 8, HammingCodes(|d|, 8), false, d)
  }

  /** The four integrity bits that are kept. */
  function Integrity(data: Word64): (i: Word)
    ensures |i| == 4
  {
    Hamming8(data)[64..68]
  }

  /** The 76 bits stored for a data word: data, possibly scrambled, integrity bits, reliability bits. */
  function StoredWord(cfg: Configs, addr: nat, data: Word64, gf: GfMultiply): (w: Word)
    ensures |w| == 76
  {
    var payload := if cfg.scramblingEnabled then XexScramble(data, addr, cfg.addrKey, cfg.dataKey, gf) else data;
    Hamming8(payload + Integrity(data))
  }

  lemma FlashLayouts()
    ensures ExactLayout(64, 8) && ExactLayout(68, 8)
  {
    assert Pow2(3) == 8 && Pow2(6) == 64 && Pow2(7) == 128;
  }

  /** `ecc_encode` for the two Hamming configurations that flash words use. */
  method EccEncodeHamming(d: Word) returns (c: Word)
    requires |d| == 64 || |d| == 68
    ensures c == Hamming8(d)
  {
    hide HammingCodes, PyEncode, Encode, ValidTuple, Bit;
    FlashLayouts();
    HammingEncodersAgree(|d|, 8, d);
    var codes := MakeHammingCode(|d|, 8);
    HammingCodesValid(|d|, 8);
    var masks := CalcBitmasks(|d|, 8, codes, false);
    assert masks == EncMasks(8, codes);
    var r := EccEncode(|d|, 8, masks, false, d);
    c := r.value;
  }

  /** One data item: encode, drop the top check bits, scramble the data part, encode again. */
  method ReformatWord(cfg: Configs, addr: nat, data: Word64, gf: GfMultiply) returns (w: Word)
    ensures w == StoredWord(cfg, addr, data, gf)
  {
    hide XexScramble;
    var withIntegrity := EccEncodeHamming(data);
    withIntegrity := withIntegrity[..WORD_SIZE + INTEGRITY_ECC_SIZE];
    Hamming8KeepsData(data);
    assert withIntegrity[..64] == Hamming8(data)[..64] == data;
    assert withIntegrity[64..] == Integrity(data);
    assert withIntegrity == withIntegrity[..64] + withIntegrity[64..];
    if cfg.scramblingEnabled {
      var integrity := withIntegrity[WORD_SIZE..];
      var scrambled := XexScramble(data, addr, cfg.addrKey, cfg.dataKey, gf);
      withIntegrity := scrambled + integrity;
    }
    w := EccEncodeHamming(withIntegrity);
  }

  /** One line of the memory file: the words at consecutive addresses. */
  method ReformatLine(cfg: Configs, address: nat, words: seq<Word64>, gf: GfMultiply) returns (line: seq<Word>)
    ensures |line| == |words|
    ensures forall i :: 0 <= i < |words| ==> line[i] == StoredWord(cfg, address + i, words[i], gf)
  {
    hide StoredWord;
    line := [];
    var addressOffset: nat := 0;
    for i := 0 to |words|
      invariant addressOffset == i == |line|
      invariant forall x :: 0 <= x < i ==> line[x] == StoredWord(cfg, address + x, words[x], gf)
    {
      var w := ReformatWord(cfg, address + addressOffset, words[i], gf);
      line := line + [w];
      addressOffset := addressOffset + 1;
    }
  }

  lemma Hamming8KeepsData(d: Word)
    requires |d| == 64 || |d| == 68
    ensures Hamming8(d)[..|d|] == d
  {
    FlashLayouts();
    HammingCausal(|d|, 8);
    EncodeKeepsData(|d|, 8, HammingCodes(|d|, 8), false, d);
  }

  // ---- reading back ----

  lemma FlashCodes()
    ensures 68 <= |HammingCodes(68, 8)|
  {
    FlashLayouts();
    LayoutCount(68, 8);
    HammingCodesValid(68, 8);
  }

  /** What the memory controller does with a stored word: correct it, then descramble the data part. */
  datatype ReadBack = ReadBack(data: Word64, integrity: Word, err0: bool, err1: bool)

  function Read(cfg: Configs, addr: nat, w: Word, gf: GfMultiply): ReadBack
    requires |w| == 76
  {
    hide HammingCodes, XexDescramble;
    FlashCodes();
    var r := Decode(68, 8, HammingCodes(68, 8), Hamming, w);
    var payload: Word64 := r.data[..64];
    ReadBack(
      if cfg.scramblingEnabled then XexDescramble(payload, addr, cfg.addrKey, cfg.dataKey, gf) else payload,
      r.data[64..],
      r.err0, r.err1)
  }

  /** The reliability code around any payload: SECDED on all 76 bits. */
  lemma ReliabilitySecded(payload: Word, e: Word)
    requires |payload| == 68 && |e| == 76 && Ones(e) <= 2
    ensures 68 <= |HammingCodes(68, 8)|
    ensures var r := Decode(68, 8, HammingCodes(68, 8), Hamming, Xor(Hamming8(payload), e));
            && (Ones(e) < 2 ==> r.data == payload)
            && (r.err0 <==> Ones(e) == 1) && (r.err1 <==> Ones(e) == 2)
  {
    hide Decode, Encode;
    FlashLayouts();
    FlashCodes();
    HammingIsGood(68, 8);
    GoodMatrixIsSecded(68, 8, HammingCodes(68, 8), Hamming);
    assert FpvAssertions(68, 8, HammingCodes(68, 8), Hamming, payload, e);
  }

  /** Main theorem: for every data word, address and keys, scrambled or not, a stored word with at most one
      flipped bit reads back as the original data with the integrity bits of that data, and one flip is reported;
      two flips are reported as uncorrectable. */
  lemma FlashWordSurvives(cfg: Configs, addr: nat, data: Word64, gf: GfMultiply, e: Word)
    requires |e| == 76 && Ones(e) <= 2
    ensures var r := Read(cfg, addr, Xor(StoredWord(cfg, addr, data, gf), e), gf);
            && (Ones(e) < 2 ==> r.data == data && r.integrity == Integrity(data))
            && (r.err0 <==> Ones(e) == 1) && (r.err1 <==> Ones(e) == 2)
  {
    hide Decode, Encode, XexScramble, XexDescramble, Ones, HammingCodes, Hamming8, Integrity;
    FlashCodes();
    var payload := if cfg.scramblingEnabled then XexScramble(data, addr, cfg.addrKey, cfg.dataKey, gf) else data;
    ReliabilitySecded(payload + Integrity(data), e);
    ScrambleBijective(data, addr, cfg.addrKey, cfg.dataKey, gf);
    assert (payload + Integrity(data))[..64] == payload;
    assert (payload + Integrity(data))[64..] == Integrity(data);
  }
}
