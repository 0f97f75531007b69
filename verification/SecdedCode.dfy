/** Code matrices, encoders and the decoder that the SECDED generator emits, given a meaning on words. */
module SecdedCode {
  import opened Bits

  /** The parity rows a codeword bit takes part in, as an increasing tuple. */
  type Tuple = seq<nat>

  datatype Kind = Hsiao | InvHsiao | Hamming | InvHamming {
    predicate Inverted() { InvHsiao? || InvHamming? }
    predicate IsHamming() { Hamming? || InvHamming? }
  }

  predicate Increasing(c: Tuple) {
    forall a, b :: 0 <= a < b < |c| ==> c[a] < c[b]
  }

  /** What every tuple of a code matrix with m parity bits looks like. */
  predicate ValidTuple(c: Tuple, m: nat) {
    Increasing(c) && forall p :: p in c ==> p < m
  }

  predicate ValidCodes(codes: seq<Tuple>, m: nat) {
    forall i :: 0 <= i < |codes| ==> ValidTuple(codes[i], m)
  }

  lemma AppendToTuple(t: Tuple, x: nat)
    requires ValidTuple(t, x)
    ensures ValidTuple(t + [x], x + 1)
  {
    assert forall a :: 0 <= a < |t| ==> t[a] in t;
  }

  // ---- bit masks ----

  /** Row j of the code matrix as a bit mask over the tuples. */
  function Mask(codes: seq<Tuple>, j: nat): nat {
    if codes == [] then 0
    else
      var n := |codes| - 1;
      Mask(codes[..n], j) + (if j in codes[n] then Pow2(n) else 0)
  }

  /** Row j of the parity check matrix, with the parity bit itself added. */
  function DecMask(k: nat, codes: seq<Tuple>, j: nat): nat {
    Mask(codes, j) + Pow2(k + j)
  }

  lemma {:induction false} MaskBound(codes: seq<Tuple>, j: nat)
    ensures Mask(codes, j) < Pow2(|codes|)
  {
    if codes != [] { MaskBound(codes[..|codes| - 1], j); }
  }

  lemma {:induction false} MaskBit(codes: seq<Tuple>, j: nat, i: nat)
    ensures Bit(Mask(codes, j), i) == (i < |codes| && j in codes[i])
  {
    if codes == [] {
      HighBits(0, 0, i);
    } else {
      var n := |codes| - 1;
      MaskBit(codes[..n], j, i);
      MaskBound(codes[..n], j);
      AddPow2(Mask(codes[..n], j), n, i);
    }
  }

  /** Tuples without row j do not enlarge its mask. */
  lemma {:induction false} MaskPrefix(codes: seq<Tuple>, j: nat, n: nat)
    requires n <= |codes|
    requires forall i :: n <= i < |codes| ==> j !in codes[i]
    ensures Mask(codes, j) == Mask(codes[..n], j)
  {
    if n < |codes| {
      var l := |codes| - 1;
      assert codes[..l][..n] == codes[..n];
      MaskPrefix(codes[..l], j, n);
    } else {
      assert codes[..n] == codes;
    }
  }

  /** Mask values after the tuples codes[..i] and the first q entries of codes[i]. */
  ghost predicate PartialMasks(masks: seq<nat>, m: nat, codes: seq<Tuple>, i: nat, q: nat)
    requires i < |codes| && q <= |codes[i]|
  {
    |masks| == m && forall j :: 0 <= j < m ==>
      masks[j] == Mask(codes[..i], j) + (if j in codes[i][..q] then Pow2(i) else 0)
  }

  method CalcBitmasks(k: nat, m: nat, codes: seq<Tuple>, dec: bool) returns (masks: seq<nat>)
    requires ValidCodes(codes, m)
    ensures |masks| == m
    ensures forall j :: 0 <= j < m ==> masks[j] == if dec then DecMask(k, codes, j) else Mask(codes, j)
  {
    masks := seq(m, _ => 0);
    for i := 0 to |codes|
      invariant |masks| == m
      invariant forall j :: 0 <= j < m ==> masks[j] == Mask(codes[..i], j)
    {
      var c := codes[i];
      for q := 0 to |c|
        invariant PartialMasks(masks, m, codes, i, q)
      {
        assert ValidTuple(c, m) && c[q] in c;
        masks := masks[c[q] := masks[c[q]] + Pow2(i)];
        assert c[..q + 1] == c[..q] + [c[q]];
      }
      assert c[..|c|] == c;
      assert codes[..i + 1][..i] == codes[..i];
    }
    assert codes[..|codes|] == codes;
    if dec {
      for j := 0 to m
        invariant |masks| == m
        invariant forall x :: 0 <= x < m ==>
          masks[x] == if x < j then DecMask(k, codes, x) else Mask(codes, x)
      {
        masks := masks[j := masks[j] + Pow2(k + j)];
      }
    }
  }

  /** The rows of a code as the masks the encoders use. */
  function EncMasks(m: nat, codes: seq<Tuple>): (masks: seq<nat>)
    ensures |masks| == m
  {
    seq(m, j requires 0 <= j < m => Mask(codes, j))
  }

  // ---- the generated encoder ----

  /** The mask that selects every odd parity bit. */
  function InvMask(m: nat): nat {
    if m == 0 then 0 else InvMask(m - 1) + (if (m - 1) % 2 == 1 then Pow2(m - 1) else 0)
  }

  /** The sequence of assignments `data_o[k+j] = ^(data_o & mask_j)`, from row j on. */
  function AssignParity(w: Word, k: nat, masks: seq<nat>, j: nat): (r: Word)
    requires j <= |masks| && |w| == k + |masks|
    ensures |r| == |w|
    decreases |masks| - j
  {
    if j == |masks| then w
    else AssignParity(w[k + j := Parity(w, masks[j])], k, masks, j + 1)
  }

  /** Meaning of the emitted encoder: zero-extend, assign the parity bits, invert odd ones. */
  function Encode(k: nat, m: nat, codes: seq<Tuple>, inverted: bool, d: Word): (r: Word)
    requires |d| == k
    ensures |r| == k + m
  {
    var w := AssignParity(d + Zeros(m), k, EncMasks(m, codes), 0);
    if inverted then XorMask(w, InvMask(m) * Pow2(k)) else w
  }

  // ---- the generated decoder ----

  datatype Decoded = Decoded(data: Word, syndrome: Word, err0: bool, err1: bool)

  function Syndrome(k: nat, m: nat, codes: seq<Tuple>, inverted: bool, w: Word): (s: Word)
    ensures |s| == m
  {
    var v := if inverted then XorMask(w, InvMask(m) * Pow2(k)) else w;
    seq(m, j requires 0 <= j < m => Parity(v, DecMask(k, codes, j)))
  }

  /** The syndrome value at which a data bit is corrected: sum of 2^x over its tuple. */
  function CalcSyndrome(c: Tuple): nat {
    if c == [] then 0 else CalcSyndrome(c[..|c| - 1]) + Pow2(c[|c| - 1])
  }

  /** `|s` */
  predicate RedOr(s: Word) {
    exists j :: 0 <= j < |s| && s[j]
  }

  /** Meaning of the emitted decoder. */
  function Decode(k: nat, m: nat, codes: seq<Tuple>, kind: Kind, w: Word): (r: Decoded)
    requires |w| == k + m && k <= |codes| && m > 0
  {
    var s := Syndrome(k, m, codes, kind.Inverted(), w);
    var data := seq(k, i requires 0 <= i < k => (ToNat(s) == CalcSyndrome(codes[i])) != w[i]);
    if kind.IsHamming() then
      Decoded(data, s, s[m - 1], RedOr(s[..m - 1]) && !s[m - 1])
    else
      Decoded(data, s, RedXor(s), !RedXor(s) && RedOr(s))
  }

  // ---- the specification the generator writes for its own output ----

  /** The assertions of the generated formal testbench for one data word and one error pattern, and,
      beyond them, that a double error never makes the decoder touch a data bit. */
  predicate FpvAssertions(k: nat, m: nat, codes: seq<Tuple>, kind: Kind, d: Word, e: Word)
    requires |d| == k && |e| == k + m && k <= |codes| && m > 0
  {
    var received := Xor(Encode(k, m, codes, kind.Inverted(), d), e);
    var r := Decode(k, m, codes, kind, received);
    && (r.err0 <==> Ones(e) == 1)
    && (r.err1 <==> Ones(e) == 2)
    && (Ones(e) < 2 ==> r.data == d)
    && (RedOr(r.syndrome) <==> Ones(e) > 0)
    && (Ones(e) == 2 ==> r.data == received[..k])
  }

  /** The code corrects every single and detects every double error. */
  ghost predicate Secded(k: nat, m: nat, codes: seq<Tuple>, kind: Kind)
    requires k <= |codes| && m > 0
  {
    forall d: Word, e: Word | |d| == k && |e| == k + m && Ones(e) <= 2 ::
      FpvAssertions(k, m, codes, kind, d, e)
  }

  // ---- columns ----

  /** Column p of the parity check matrix. */
  function Column(k: nat, m: nat, codes: seq<Tuple>, p: nat): (s: Word)
    ensures |s| == m
  {
    seq(m, j requires 0 <= j < m => Bit(DecMask(k, codes, j), p))
  }

  /** A tuple as a column of bits. */
  function Indicator(c: Tuple, m: nat): (s: Word)
    ensures |s| == m
  {
    seq(m, j requires 0 <= j < m => j in c)
  }

  lemma ShorterTuple(c: Tuple, m: nat)
    requires ValidTuple(c, m) && c != []
    ensures ValidTuple(c[..|c| - 1], c[|c| - 1]) && c[|c| - 1] < m
  {
    var n := |c| - 1;
    assert c[n] in c;
    forall p | p in c[..n] ensures p < c[n] {
      var a :| 0 <= a < n && c[a] == p;
    }
  }

  lemma {:induction false} CalcSyndromeBound(c: Tuple, m: nat)
    requires ValidTuple(c, m)
    ensures CalcSyndrome(c) < Pow2(m)
  {
    if c != [] {
      ShorterTuple(c, m);
      CalcSyndromeBound(c[..|c| - 1], c[|c| - 1]);
      Pow2Monotone(c[|c| - 1] + 1, m);
    }
  }

  lemma {:induction false} CalcSyndromeBit(c: Tuple, m: nat, j: nat)
    requires ValidTuple(c, m)
    ensures Bit(CalcSyndrome(c), j) == (j in c)
  {
    if c == [] {
      HighBits(0, 0, j);
    } else {
      var t, x := c[..|c| - 1], c[|c| - 1];
      ShorterTuple(c, m);
      CalcSyndromeBit(t, x, j);
      CalcSyndromeBound(t, x);
      AddPow2(CalcSyndrome(t), x, j);
      assert c == t + [x];
    }
  }

  /** The comparison `syndrome_o == calc_syndrome(c)` holds exactly when the syndrome is c's column. */
  lemma SyndromeMatch(s: Word, c: Tuple, m: nat)
    requires |s| == m && ValidTuple(c, m)
    ensures ToNat(s) == CalcSyndrome(c) <==> s == Indicator(c, m)
  {
    var t := Indicator(c, m);
    if ToNat(t) != CalcSyndrome(c) {
      ToNatBound(t);
      CalcSyndromeBound(c, m);
      var j := DifferingBit(ToNat(t), CalcSyndrome(c), m);
      ToNatBit(t, j);
      CalcSyndromeBit(c, m, j);
      assert false;
    }
    if ToNat(s) == ToNat(t) { ToNatInjective(s, t); }
  }

  /** The linear part of the error flags: overall parity of the syndrome, or its last bit. */
  predicate Flag(hamming: bool, s: Word)
    requires |s| > 0
  {
    if hamming then s[|s| - 1] else RedXor(s)
  }

  lemma FlagLinear(hamming: bool, a: Word, b: Word)
    requires |a| == |b| > 0
    ensures Flag(hamming, Xor(a, b)) == (Flag(hamming, a) != Flag(hamming, b))
  {
    RedXorLinear(a, b);
  }

  lemma {:induction false} RedXorZeros(n: nat)
    ensures !RedXor(Zeros(n))
  {
    if n > 0 {
      assert Zeros(n)[..n - 1] == Zeros(n - 1);
      RedXorZeros(n - 1);
    }
  }

  /** What makes a matrix SECDED: each parity row only reads bits assigned before its own parity bit,
      data columns are the tuples, columns differ pairwise, and all raise the single-error flag. */
  ghost predicate GoodMatrix(k: nat, m: nat, codes: seq<Tuple>, hamming: bool)
    requires m > 0
  {
    && k <= |codes|
    && ValidCodes(codes[..k], m)
    && (forall j :: 0 <= j < m ==> Mask(codes, j) < Pow2(k + j))
    && (forall p :: 0 <= p < k ==> Column(k, m, codes, p) == Indicator(codes[p], m))
    && (forall p, q :: 0 <= p < q < k + m ==> Column(k, m, codes, p) != Column(k, m, codes, q))
    && (forall p :: 0 <= p < k + m ==> Flag(hamming, Column(k, m, codes, p)))
  }
}
