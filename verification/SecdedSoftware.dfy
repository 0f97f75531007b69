/** The software encoders, in Python and in generated C, against the generated hardware encoder. */
module SecdedSoftware {
  import opened Wrappers
  import opened Bits
  import opened SecdedCode
  import opened SecdedTheorem
  import opened HammingCode

  // ---- the Python encoder ----

  /** Number of binary digits of n. */
  function BitLength(n: nat): nat {
    if n == 0 then 0 else 1 + BitLength(n / 2)
  }

  /** Append one parity bit per mask; a mask that reaches past the codeword so far is an index error. */
  function PyEncode(c: Word, masks: seq<nat>, invert: bool, j: nat): Option<Word>
    requires j <= |masks|
    decreases |masks| - j
  {
    if j == |masks| then Some(c)
    else if masks[j] >= Pow2(|c|) then None
    else PyEncode(c + [Parity(c, masks[j]) != (invert && j % 2 == 1)], masks, invert, j + 1)
  }

  lemma {:induction false} BitLengthBound(n: nat)
    ensures n < Pow2(BitLength(n))
  {
    if n > 0 { BitLengthBound(n / 2); }
  }

  /** A number without bits from n on fits below 2^n. */
  lemma {:induction false} FitsBelow(x: nat, n: nat, l: nat)
    requires x < Pow2(l) && forall i :: n <= i < l ==> !Bit(x, i)
    ensures x < Pow2(n)
  {
    if n < l && x >= Pow2(n) {
      if n == 0 {
        var j := DifferingBit(x, 0, l);
        HighBits(0, 0, j);
        assert false;
      } else {
        forall i | n - 1 <= i < l - 1 ensures !Bit(x / 2, i) { assert !Bit(x, i + 1); }
        FitsBelow(x / 2, n - 1, l - 1);
      }
    } else if n >= l {
      Pow2Monotone(l, n);
    }
  }

  /** `_ecc_encode`: the codeword grows by one bit per mask, whose digits are scanned from the right. */
  method EccEncode(k: nat, m: nat, masks: seq<nat>, invert: bool, d: Word) returns (r: Option<Word>)
    requires |d| == k && |masks| == m
    ensures r == PyEncode(d, masks, invert, 0)
  {
    var c := d;
    for j := 0 to m
      invariant PyEncode(c, masks, invert, j) == PyEncode(d, masks, invert, 0)
    {
      var mask := masks[j];
      var bit := false;
      var digits := if BitLength(mask) < j + m then j + m else BitLength(mask);
      for idx := 0 to digits
        invariant bit == Parity(c[..if idx < |c| then idx else |c|], mask)
        invariant forall i :: |c| <= i < idx ==> !Bit(mask, i)
      {
        if Bit(mask, idx) {
          if idx >= |c| {
            if mask < Pow2(|c|) { HighBits(mask, |c|, idx); }
            return None;
          }
          bit := bit != c[idx];
        }
        if idx < |c| { assert c[..idx + 1][..idx] == c[..idx]; }
      }
      BitLengthBound(mask);
      Pow2Monotone(BitLength(mask), digits);
      FitsBelow(mask, |c|, digits);
      assert Parity(c, mask) == bit by {
        if digits < |c| {
          forall i | digits <= i < |c| ensures !Bit(mask, i) { HighBits(mask, digits, i); }
          ParityAgree(c[..digits], c, mask, mask);
        } else {
          assert c[..|c|] == c;
        }
      }
      c := c + [bit != (invert && j % 2 == 1)];
    }
    r := Some(c);
  }

  /** The Python encoder succeeds exactly when every mask only reads bits appended before. */
  lemma {:induction false} PyEncodeSucceeds(c: Word, masks: seq<nat>, invert: bool, j: nat, k: nat)
    requires j <= |masks| && |c| == k + j
    ensures PyEncode(c, masks, invert, j).Some? <==> forall x :: j <= x < |masks| ==> masks[x] < Pow2(k + x)
    decreases |masks| - j
  {
    if j < |masks| && masks[j] < Pow2(|c|) {
      PyEncodeSucceeds(c + [Parity(c, masks[j]) != (invert && j % 2 == 1)], masks, invert, j + 1, k);
    }
  }

  /** Bit k + x of a Python codeword: the parity over the word before it, inverted bits included. */
  predicate PyBit(v: Word, masks: seq<nat>, invert: bool, k: nat, x: nat)
    requires |v| == k + |masks| && x < |masks|
  {
    v[k + x] == (Parity(v[..k + x], masks[x]) != (invert && x % 2 == 1))
  }

  /** What the Python encoder appends. */
  lemma {:induction false} PyEncodeBits(c: Word, masks: seq<nat>, invert: bool, j: nat, k: nat)
    requires j <= |masks| && |c| == k + j && Causal(k, masks)
    ensures var r := PyEncode(c, masks, invert, j);
            && r.Some? && |r.value| == k + |masks| && r.value[..k + j] == c
            && forall x :: j <= x < |masks| ==> PyBit(r.value, masks, invert, k, x)
    decreases |masks| - j
  {
    if j < |masks| {
      var c' := c + [Parity(c, masks[j]) != (invert && j % 2 == 1)];
      PyEncodeBits(c', masks, invert, j + 1, k);
      var v := PyEncode(c, masks, invert, j).value;
      assert v[..k + j + 1] == c';
      assert v[..k + j] == c by { assert v[..k + j] == c'[..k + j]; }
      assert v[k + j] == c'[k + j];
      assert PyBit(v, masks, invert, k, j);
    }
  }

  lemma HwInversion(k: nat, m: nat, codes: seq<Tuple>, inverted: bool, d: Word, j: nat)
    requires |d| == k && j < m
    ensures Encode(k, m, codes, inverted, d)[k + j]
         == (Encode(k, m, codes, false, d)[k + j] != (inverted && j % 2 == 1))
  {
    ShiftBit(InvMask(m), k, k + j);
    InvMaskBit(m, j);
  }

  /** The hardware codeword bit by bit. */
  lemma HwEncodeBits(k: nat, m: nat, codes: seq<Tuple>, inverted: bool, d: Word)
    requires |d| == k && Causal(k, EncMasks(m, codes))
    ensures var w, plain := Encode(k, m, codes, inverted, d), Encode(k, m, codes, false, d);
            && w[..k] == plain[..k] == d
            && (forall j :: 0 <= j < m ==> plain[k + j] == Parity(plain, Mask(codes, j)))
            && (forall j :: 0 <= j < m ==> w[k + j] == (plain[k + j] != (inverted && j % 2 == 1)))
  {
    EncodeKeepsData(k, m, codes, inverted, d);
    EncodeKeepsData(k, m, codes, false, d);
    var masks := EncMasks(m, codes);
    AssignedParities(d + Zeros(m), k, masks, 0);
    assert forall j :: 0 <= j < m ==> masks[j] == Mask(codes, j);
    forall j | 0 <= j < m
      ensures Encode(k, m, codes, inverted, d)[k + j]
           == (Encode(k, m, codes, false, d)[k + j] != (inverted && j % 2 == 1))
    {
      HwInversion(k, m, codes, inverted, d, j);
    }
  }

  /** A parity row that only reads data gives the same check bit in both encoders. */
  lemma DataRowAgrees(k: nat, m: nat, codes: seq<Tuple>, inverted: bool, d: Word, j: nat)
    requires |d| == k && Causal(k, EncMasks(m, codes)) && j < m && Mask(codes, j) < Pow2(k)
    ensures var p := PyEncode(d, EncMasks(m, codes), inverted, 0);
            p.Some? && |p.value| == k + m && p.value[k + j] == Encode(k, m, codes, inverted, d)[k + j]
  {
    var masks := EncMasks(m, codes);
    PyEncodeBits(d, masks, inverted, 0, k);
    HwEncodeBits(k, m, codes, inverted, d);
    var p := PyEncode(d, masks, inverted, 0).value;
    var plain := Encode(k, m, codes, false, d);
    assert p[..k + 0] == d && masks[j] == Mask(codes, j);
    forall i | k <= i < k + m ensures !Bit(masks[j], i) { HighBits(masks[j], k, i); }
    forall i | 0 <= i < k ensures p[i] == d[i] == plain[i] {
      assert p[..k + 0][i] == p[i] && plain[..k][i] == plain[i];
    }
    assert PyBit(p, masks, inverted, k, j);
    ParityAgree(p[..k + j], plain, masks[j], masks[j]);
  }

  /** Without inversion, the Python encoder is the hardware encoder, for every matrix whose rows only read
      bits assigned before them. */
  lemma {:induction false} PlainAgrees(k: nat, w: Word, masks: seq<nat>, j: nat)
    requires j <= |masks| && |w| == k + |masks| && Causal(k, masks)
    ensures PyEncode(w[..k + j], masks, false, j) == Some(AssignParity(w, k, masks, j))
    decreases |masks| - j
  {
    if j == |masks| {
      assert w[..k + j] == w;
    } else {
      var c := w[..k + j];
      forall i | |c| <= i < |w| ensures !Bit(masks[j], i) { HighBits(masks[j], |c|, i); }
      ParityAgree(c, w, masks[j], masks[j]);
      var v := w[k + j := Parity(w, masks[j])];
      PlainAgrees(k, v, masks, j + 1);
      assert v[..k + j + 1] == c + [Parity(c, masks[j])];
    }
  }

  /** Hsiao codes, inverted or not: the Python codeword is the hardware codeword on every data word. */
  lemma HsiaoEncodersAgree(k: nat, m: nat, codes: seq<Tuple>, inverted: bool, d: Word)
    requires |d| == k == |codes|
    ensures PyEncode(d, EncMasks(m, codes), inverted, 0) == Some(Encode(k, m, codes, inverted, d))
  {
    var masks := EncMasks(m, codes);
    forall j | 0 <= j < m ensures masks[j] == Mask(codes, j) < Pow2(k) <= Pow2(k + j) {
      MaskBound(codes, j);
      Pow2Monotone(k, k + j);
    }
    PyEncodeBits(d, masks, inverted, 0, k);
    HwEncodeBits(k, m, codes, inverted, d);
    var p, w := PyEncode(d, masks, inverted, 0).value, Encode(k, m, codes, inverted, d);
    forall i | 0 <= i < k + m ensures p[i] == w[i] {
      if i < k {
        assert p[..k + 0][i] == p[i] && w[..k][i] == w[i];
      } else {
        DataRowAgrees(k, m, codes, inverted, d, i - k);
      }
    }
    assert p == w;
  }

  lemma HammingCausal(k: nat, m: nat)
    requires ExactLayout(k, m)
    ensures Causal(k, EncMasks(m, HammingCodes(k, m)))
    ensures forall j :: 0 <= j < m - 1 ==> Mask(HammingCodes(k, m), j) < Pow2(k)
  {
    var codes := HammingCodes(k, m);
    LayoutCount(k, m);
    HammingCodesValid(k, m);
    forall j | 0 <= j < m
      ensures Mask(codes, j) < Pow2(k + j)
      ensures j < m - 1 ==> Mask(codes, j) < Pow2(k)
    {
      ExactLayoutMasks(k, m, j);
      if j < m - 1 { HammingDataRow(k, m, j); }
    }
  }

  /** Hamming codes: the Python codeword is the hardware codeword on every data word. */
  lemma HammingEncodersAgree(k: nat, m: nat, d: Word)
    requires ExactLayout(k, m) && |d| == k
    ensures PyEncode(d, EncMasks(m, HammingCodes(k, m)), false, 0)
         == Some(Encode(k, m, HammingCodes(k, m), false, d))
  {
    HammingCausal(k, m);
    PlainAgrees(k, d + Zeros(m), EncMasks(m, HammingCodes(k, m)), 0);
    assert (d + Zeros(m))[..k + 0] == d;
  }

  /** The parity of the inverted bits among the first n check bits. */
  lemma {:induction false} InvertedBitsParity(a: Word, b: Word, k: nat, mask: nat)
    requires |a| == |b| >= k
    requires forall i :: 0 <= i < k ==> a[i] == b[i]
    requires forall i :: k <= i < |a| ==> Bit(mask, i) && a[i] == (b[i] != ((i - k) % 2 == 1))
    ensures Parity(a, mask) == (Parity(b, mask) != (((|a| - k) / 2) % 2 == 1))
    decreases |a|
  {
    hide Bit;
    if |a| == k {
      ParityAgree(a, b, mask, mask);
    } else {
      var l := |a| - 1;
      InvertedBitsParity(a[..l], b[..l], k, mask);
      assert Bit(mask, l) && a[l] == (b[l] != ((l - k) % 2 == 1));
      HalfParity(|a| - k);
    }
  }

  lemma HalfParity(n: nat)
    requires n > 0
    ensures ((n / 2) % 2 == 1) == ((((n - 1) / 2) % 2 == 1) != ((n - 1) % 2 == 1))
  {
    assert n / 2 == (n - 1) / 2 + (if (n - 1) % 2 == 1 then 1 else 0);
  }

  /** The last bit of the inverted Hamming codes, in terms of the bits before it. */
  lemma InvHammingLastBit(k: nat, m: nat, d: Word, p: Word, plain: Word)
    requires ExactLayout(k, m) && |d| == k && |p| == |plain| == k + m
    requires plain == Encode(k, m, HammingCodes(k, m), false, d)
    requires Causal(k, EncMasks(m, HammingCodes(k, m)))
    requires PyBit(p, EncMasks(m, HammingCodes(k, m)), true, k, m - 1)
    requires forall i :: 0 <= i < k + m - 1 ==> p[i] == (plain[i] != (i >= k && (i - k) % 2 == 1))
    ensures p[k + m - 1] == ((plain[k + m - 1] != (((m - 1) / 2) % 2 == 1)) != ((m - 1) % 2 == 1))
  {
    hide Encode, HammingCodes, Mask, Parity, Bit;
    var codes, n := HammingCodes(k, m), k + m - 1;
    var mask := Mask(codes, m - 1);
    LayoutCount(k, m);
    HammingCodesValid(k, m);
    HwEncodeBits(k, m, codes, true, d);
    assert EncMasks(m, codes)[m - 1] == mask;
    forall i | 0 <= i < n ensures Bit(mask, i) { HammingTuple(k, m, i); MaskBit(codes, m - 1, i); }
    assert Parity(p[..n], mask) == (Parity(plain[..n], mask) != (((m - 1) / 2) % 2 == 1)) by {
      assert n - k == m - 1;
      InvertedBitsParity(p[..n], plain[..n], k, mask);
    }
    assert Parity(plain[..n], mask) == Parity(plain, mask) by {
      MaskBit(codes, m - 1, n);
      ParityAgree(plain[..n], plain, mask, mask);
    }
    assert k + (m - 1) == n;
  }

  lemma InvHammingPrefix(k: nat, m: nat, d: Word, i: nat)
    requires ExactLayout(k, m) && |d| == k && i < k + m - 1
    ensures var codes := HammingCodes(k, m);
            var p := PyEncode(d, EncMasks(m, codes), true, 0);
            && p.Some? && |p.value| == k + m
            && p.value[i] == Encode(k, m, codes, true, d)[i]
            && p.value[i] == (Encode(k, m, codes, false, d)[i] != (i >= k && (i - k) % 2 == 1))
  {
    var codes := HammingCodes(k, m);
    HammingCausal(k, m);
    PyEncodeBits(d, EncMasks(m, codes), true, 0, k);
    HwEncodeBits(k, m, codes, true, d);
    var p := PyEncode(d, EncMasks(m, codes), true, 0).value;
    var w, plain := Encode(k, m, codes, true, d), Encode(k, m, codes, false, d);
    if i < k {
      assert p[..k + 0][i] == p[i] && w[..k][i] == w[i] && plain[..k][i] == plain[i];
    } else {
      DataRowAgrees(k, m, codes, true, d, i - k);
      HwInversion(k, m, codes, true, d, i - k);
    }
  }

  /** Inverted Hamming codes: the Python codeword and the hardware codeword agree on all bits but the last,
      and on the last exactly when (m-1)//2 is even. */
  lemma InvHammingEncoders(k: nat, m: nat, d: Word)
    requires ExactLayout(k, m) && |d| == k
    ensures var codes := HammingCodes(k, m);
            var p := PyEncode(d, EncMasks(m, codes), true, 0);
            var w := Encode(k, m, codes, true, d);
            && p.Some? && |p.value| == |w| == k + m
            && p.value[..k + m - 1] == w[..k + m - 1]
            && (p.value == w <==> ((m - 1) / 2) % 2 == 0)
  {
    hide HammingCodes, Encode, PyEncode, Causal, PyBit, Pow2;
    var codes, n := HammingCodes(k, m), k + m - 1;
    HammingCausal(k, m);
    PyEncodeBits(d, EncMasks(m, codes), true, 0, k);
    var p := PyEncode(d, EncMasks(m, codes), true, 0).value;
    var w, plain := Encode(k, m, codes, true, d), Encode(k, m, codes, false, d);
    forall i | 0 <= i < n
      ensures p[i] == w[i]
      ensures p[i] == (plain[i] != (i >= k && (i - k) % 2 == 1))
    {
      InvHammingPrefix(k, m, d, i);
    }
    assert PyBit(p, EncMasks(m, codes), true, k, m - 1);
    InvHammingLastBit(k, m, d, p, plain);
    HwInversion(k, m, codes, true, d, m - 1);
    assert p == p[..n] + [p[n]] && w == w[..n] + [w[n]];
  }

  lemma LastBitDiffers(p: Word, w: Word)
    requires |p| == |w| > 0 && p != w && p[..|w| - 1] == w[..|w| - 1]
    ensures p == Xor(w, Unit(|w|, |w| - 1))
  {
    var l := |w| - 1;
    assert p == p[..l] + [p[l]] && w == w[..l] + [w[l]];
    assert p[l] != w[l];
    var x := Xor(w, Unit(|w|, l));
    forall i | 0 <= i < |p| ensures p[i] == x[i] {
      if i < l { assert p[i] == p[..l][i] == w[..l][i] == w[i]; }
    }
    assert p == x;
  }

  /** When they differ, the hardware decoder reads an untouched Python codeword as a single error: the data
      survives, but no error margin is left. */
  lemma InvHammingMismatchIsSingleError(k: nat, m: nat, d: Word)
    requires ExactLayout(k, m) && |d| == k && ((m - 1) / 2) % 2 == 1
    requires k <= |HammingCodes(k, m)|
    ensures var codes := HammingCodes(k, m);
            var p := PyEncode(d, EncMasks(m, codes), true, 0);
            && p.Some? && |p.value| == k + m
            && var r := Decode(k, m, codes, InvHamming, p.value);
            r.data == d && r.err0 && !r.err1
  {
    hide Decode, Encode, PyEncode, HammingCodes, Secded, GoodMatrix;
    var codes, n := HammingCodes(k, m), k + m;
    InvHammingEncoders(k, m, d);
    var p, w := PyEncode(d, EncMasks(m, codes), true, 0).value, Encode(k, m, codes, true, d);
    var e := Unit(n, n - 1);
    LastBitDiffers(p, w);
    HammingIsGood(k, m);
    GoodMatrixIsSecded(k, m, codes, InvHamming);
    FlipCorrected(k, m, codes, InvHamming, d, n - 1);
  }

  /** Among the admitted configurations, the Python encoder runs for Hamming codes without an index error
      if and only if the layout is exact. */
  lemma HammingPythonRuns(k: nat, m: nat, invert: bool, d: Word)
    requires Admitted(k, m) && |d| == k
    ensures PyEncode(d, EncMasks(m, HammingCodes(k, m)), invert, 0).Some? <==> Pow2(m - 2) <= k + m - 1
  {
    hide Encode, HammingCodes, Mask, PyEncode, ValidTuple, Bit, DataPositions;
    var codes := HammingCodes(k, m);
    PyEncodeSucceeds(d, EncMasks(m, codes), invert, 0, k);
    LayoutCount(k, m);
    HammingCodesValid(k, m);
    if ExactLayout(k, m) {
      HammingCausal(k, m);
    } else {
      forall i | 0 <= i < |codes| ensures (m - 1) in codes[i] { HammingTuple(k, m, i); }
      AllRowsMask(codes, m - 1);
      Pow2Monotone(k + m, |codes|);
      assert EncMasks(m, codes)[m - 1] == Pow2(|codes|) - 1 >= Pow2(k + (m - 1));
    }
  }

  // ---- the C encoder ----

  /** Parity of the binary digits of n. */
  function NatParity(n: nat): bool {
    if n == 0 then false else NatParity(n / 2) != (n % 2 == 1)
  }

  /** The emitted `calc_parity`. */
  method CalcParity(word: nat, invert: bool) returns (parity: bool)
    ensures parity == (NatParity(word) != invert)
  {
    parity := false;
    var w := word;
    while w != 0
      invariant (parity != NatParity(w)) == NatParity(word)
      decreases w
    {
      if w % 2 == 1 {
        parity := !parity;
      }
      w := w / 2;
    }
    parity := parity != invert;
  }

  /** The word the emitted function forms from its bytes, little end first. */
  function WordOfBytes(bytes: seq<nat>): nat {
    if bytes == [] then 0
    else BitOr(WordOfBytes(bytes[..|bytes| - 1]), bytes[|bytes| - 1] * Pow2(8 * (|bytes| - 1)))
  }

  lemma {:induction false} WordOfBytesBit(bytes: seq<nat>, i: nat)
    requires forall b :: 0 <= b < |bytes| ==> bytes[b] < 256
    ensures Bit(WordOfBytes(bytes), i) == (i / 8 < |bytes| && Bit(bytes[i / 8], i % 8))
  {
    if bytes == [] {
      HighBits(0, 0, i);
    } else {
      var l := |bytes| - 1;
      WordOfBytesBit(bytes[..l], i);
      BitOrBit(WordOfBytes(bytes[..l]), bytes[l] * Pow2(8 * l), i);
      ShiftBit(bytes[l], 8 * l, i);
      assert Pow2(8) == 256;
      if i >= 8 * l + 8 { HighBits(bytes[l], 8, i - 8 * l); }
    }
  }

  /** The emitted return value: the parities from row j on, each shifted to its place. */
  function CEncode(word: nat, masks: seq<nat>, invert: bool, j: nat): nat
    requires j <= |masks|
    decreases |masks| - j
  {
    if j == |masks| then 0
    else
      var bit := NatParity(BitAnd(word, masks[j])) != (invert && j % 2 == 1);
      BitOr((if bit then 1 else 0) * Pow2(j), CEncode(word, masks, invert, j + 1))
  }

  lemma {:induction false} CEncodeBit(word: nat, masks: seq<nat>, invert: bool, j: nat, x: nat)
    requires j <= |masks|
    ensures Bit(CEncode(word, masks, invert, j), x)
         == (j <= x < |masks| && (NatParity(BitAnd(word, masks[x])) != (invert && x % 2 == 1)))
    decreases |masks| - j
  {
    HighBits(0, 0, x);
    if j < |masks| {
      var b: nat := if NatParity(BitAnd(word, masks[j])) != (invert && j % 2 == 1) then 1 else 0;
      CEncodeBit(word, masks, invert, j + 1, x);
      BitOrBit(b * Pow2(j), CEncode(word, masks, invert, j + 1), x);
      ShiftBit(b, j, x);
      if x > j { HighBits(b, 1, x - j); }
    }
  }

  lemma {:induction false} ParityCons(b: bool, w: Word, mask: nat)
    ensures Parity([b] + w, mask) == ((b && mask % 2 == 1) != Parity(w, mask / 2))
  {
    if w == [] {
      assert ([b] + w)[..0] == [];
    } else {
      var l := |w| - 1;
      ParityCons(b, w[..l], mask);
      assert ([b] + w)[..l + 1] == [b] + w[..l];
    }
  }

  /** `calc_parity(word & mask)` is the xor-reduction of the masked low bits. */
  lemma {:induction false} NatParityIsParity(x: nat, mask: nat, d: Word)
    requires mask < Pow2(|d|) && forall i :: 0 <= i < |d| ==> d[i] == Bit(x, i)
    ensures NatParity(BitAnd(x, mask)) == Parity(d, mask)
  {
    if d != [] {
      NatParityIsParity(x / 2, mask / 2, d[1..]);
      ParityCons(d[0], d[1..], mask);
      assert d == [d[0]] + d[1..];
      var h := BitAnd(x / 2, mask / 2);
      if x != 0 && mask != 0 {
        assert BitAnd(x, mask) == 2 * h + (x % 2) * (mask % 2);
        assert BitAnd(x, mask) / 2 == h && (BitAnd(x, mask) % 2 == 1) == (x % 2 == 1 && mask % 2 == 1);
      }
    }
  }

  /** The data word the C function encodes: the first k bits of its byte array. */
  function DataOfBytes(k: nat, bytes: seq<nat>): (d: Word)
    requires k <= 8 * |bytes|
    ensures |d| == k
  {
    seq(k, i requires 0 <= i < k => Bit(bytes[i / 8], i % 8))
  }

  /** The C function returns exactly the hardware check bits, whatever the unused bits of the last byte. */
  lemma CEncoderAgrees(k: nat, m: nat, codes: seq<Tuple>, inverted: bool, bytes: seq<nat>, j: nat)
    requires |codes| == k <= 64 && |bytes| == (k + 7) / 8
    requires forall b :: 0 <= b < |bytes| ==> bytes[b] < 256
    ensures Bit(CEncode(WordOfBytes(bytes), EncMasks(m, codes), inverted, 0), j)
         == (j < m && Encode(k, m, codes, inverted, DataOfBytes(k, bytes))[k + j])
  {
    var d, masks := DataOfBytes(k, bytes), EncMasks(m, codes);
    CEncodeBit(WordOfBytes(bytes), masks, inverted, 0, j);
    if j < m {
      forall x | 0 <= x < m ensures masks[x] == Mask(codes, x) < Pow2(k) <= Pow2(k + x) {
        MaskBound(codes, x);
        Pow2Monotone(k, k + x);
      }
      HwEncodeBits(k, m, codes, inverted, d);
      var plain := Encode(k, m, codes, false, d);
      forall i | 0 <= i < k ensures d[i] == Bit(WordOfBytes(bytes), i) { WordOfBytesBit(bytes, i); }
      NatParityIsParity(WordOfBytes(bytes), masks[j], d);
      forall i | k <= i < k + m ensures !Bit(masks[j], i) { HighBits(masks[j], k, i); }
      ParityAgree(plain[..k], plain, masks[j], masks[j]);
    }
  }
}
