/** A good parity check matrix gives a code that corrects single and detects double errors. */
module SecdedTheorem {
  import opened Bits
  import opened SecdedCode

  // ---- clean codewords have syndrome zero ----

  lemma {:induction false} ParityAddBit(w: Word, x: nat, n: nat)
    requires x < Pow2(n) && n < |w|
    ensures Parity(w, x + Pow2(n)) == (Parity(w, x) != w[n])
    decreases |w|
  {
    var l := |w| - 1;
    if n < l {
      ParityAddBit(w[..l], x, n);
      AddPow2(x, n, l);
    } else {
      forall i | 0 <= i < l ensures Bit(x + Pow2(n), i) == Bit(x, i) { AddPow2(x, n, i); }
      ParityAgree(w[..l], w[..l], x, x + Pow2(n));
      AddPow2(x, n, n);
      HighBits(x, n, n);
    }
  }

  predicate Causal(k: nat, masks: seq<nat>) {
    forall j :: 0 <= j < |masks| ==> masks[j] < Pow2(k + j)
  }

  /** The emitted assignments leave earlier bits alone, and each parity bit ends up equal to the parity
      of the final word under its mask. */
  lemma {:induction false} AssignedParities(w: Word, k: nat, masks: seq<nat>, j: nat)
    requires j <= |masks| && |w| == k + |masks| && Causal(k, masks)
    ensures var r := AssignParity(w, k, masks, j);
            && r[..k + j] == w[..k + j]
            && forall x :: j <= x < |masks| ==> r[k + x] == Parity(r, masks[x])
    decreases |masks| - j
  {
    if j < |masks| {
      var v := w[k + j := Parity(w, masks[j])];
      AssignedParities(v, k, masks, j + 1);
      var r := AssignParity(w, k, masks, j);
      assert r == AssignParity(v, k, masks, j + 1);
      forall i | 0 <= i < |w| ensures (w[i] && Bit(masks[j], i)) == (r[i] && Bit(masks[j], i)) {
        if i < k + j {
          assert r[i] == r[..k + j + 1][i] == v[i] == w[i];
        } else {
          HighBits(masks[j], k + j, i);
        }
      }
      ParityAgree(w, r, masks[j], masks[j]);
      assert r[k + j] == r[..k + j + 1][k + j] == v[k + j];
      assert r[..k + j] == r[..k + j + 1][..k + j] == w[..k + j];
    }
  }

  lemma InvMaskBound(m: nat)
    ensures InvMask(m) < Pow2(m)
  {
  }

  lemma {:induction false} ShiftBit(x: nat, k: nat, i: nat)
    ensures Bit(x * Pow2(k), i) == (i >= k && Bit(x, i - k))
  {
    if k > 0 {
      assert x * Pow2(k) == 2 * (x * Pow2(k - 1));
      if i > 0 { ShiftBit(x, k - 1, i - 1); }
    } else {
      assert x * 1 == x;
    }
  }

  lemma {:induction false} InvMaskBit(m: nat, j: nat)
    ensures Bit(InvMask(m), j) == (j < m && j % 2 == 1)
  {
    if m == 0 {
      HighBits(0, 0, j);
    } else {
      InvMaskBit(m - 1, j);
      InvMaskBound(m - 1);
      AddPow2(InvMask(m - 1), m - 1, j);
    }
  }

  /** The data bits of a codeword, whatever the kind of code, are the data word. */
  lemma EncodeKeepsData(k: nat, m: nat, codes: seq<Tuple>, inverted: bool, d: Word)
    requires |d| == k && Causal(k, EncMasks(m, codes))
    ensures Encode(k, m, codes, inverted, d)[..k] == d
  {
    AssignedParities(d + Zeros(m), k, EncMasks(m, codes), 0);
    forall i | 0 <= i < k ensures !Bit(InvMask(m) * Pow2(k), i) { ShiftBit(InvMask(m), k, i); }
    var r := AssignParity(d + Zeros(m), k, EncMasks(m, codes), 0);
    assert r[..k + 0] == (d + Zeros(m))[..k + 0] == d;
    var c := Encode(k, m, codes, inverted, d);
    forall i | 0 <= i < k ensures c[..k][i] == d[i] {
      assert c[i] == r[i] == r[..k + 0][i];
    }
  }

  /** Undoing the inversion: the decoder sees the plain codeword with the same errors. */
  lemma InversionCancels(k: nat, m: nat, codes: seq<Tuple>, inverted: bool, d: Word, e: Word)
    requires |d| == k && |e| == k + m
    ensures Syndrome(k, m, codes, inverted, Xor(Encode(k, m, codes, inverted, d), e))
         == Syndrome(k, m, codes, false, Xor(Encode(k, m, codes, false, d), e))
  {
    var mask := InvMask(m) * Pow2(k);
    var w := AssignParity(d + Zeros(m), k, EncMasks(m, codes), 0);
    assert XorMask(Xor(XorMask(w, mask), e), mask) == Xor(w, e);
  }

  /** The syndrome a given error pattern causes. */
  function ErrorSyndrome(k: nat, m: nat, codes: seq<Tuple>, e: Word): (s: Word)
    ensures |s| == m
  {
    seq(m, j requires 0 <= j < m => Parity(e, DecMask(k, codes, j)))
  }

  /** The syndrome of a received word only depends on the error pattern. */
  lemma SyndromeOfError(k: nat, m: nat, codes: seq<Tuple>, inverted: bool, d: Word, e: Word)
    requires |d| == k && |e| == k + m && Causal(k, EncMasks(m, codes))
    ensures Syndrome(k, m, codes, inverted, Xor(Encode(k, m, codes, inverted, d), e))
         == ErrorSyndrome(k, m, codes, e)
  {
    InversionCancels(k, m, codes, inverted, d, e);
    var masks := EncMasks(m, codes);
    AssignedParities(d + Zeros(m), k, masks, 0);
    var w := Encode(k, m, codes, false, d);
    forall j | 0 <= j < m
      ensures Parity(Xor(w, e), DecMask(k, codes, j)) == Parity(e, DecMask(k, codes, j))
    {
      ParityLinear(w, e, DecMask(k, codes, j));
      assert masks[j] == Mask(codes, j);
      ParityAddBit(w, masks[j], k + j);
    }
  }

  // ---- error patterns of weight at most two ----

  function Unit(n: nat, p: nat): (w: Word)
    requires p < n
    ensures |w| == n
  {
    seq(n, i => i == p)
  }

  lemma UnitSyndrome(k: nat, m: nat, codes: seq<Tuple>, p: nat)
    requires p < k + m
    ensures ErrorSyndrome(k, m, codes, Unit(k + m, p)) == Column(k, m, codes, p)
  {
    forall j | 0 <= j < m
      ensures Parity(Unit(k + m, p), DecMask(k, codes, j)) == Bit(DecMask(k, codes, j), p)
    {
      ParityOne(Unit(k + m, p), DecMask(k, codes, j), p);
    }
  }

  lemma OneError(e: Word) returns (p: nat)
    requires Ones(e) == 1
    ensures p < |e| && e == Unit(|e|, p)
  {
    p := PickOne(e);
    NoOnes(e[p := false]);
    assert forall i :: 0 <= i < |e| ==> e[i] == (if i == p then true else e[p := false][i]);
  }

  lemma TwoErrors(e: Word) returns (p: nat, q: nat)
    requires Ones(e) == 2
    ensures p < q < |e| && e == Xor(Unit(|e|, p), Unit(|e|, q))
  {
    var a := PickOne(e);
    var b := OneError(e[a := false]);
    assert forall i :: 0 <= i < |e| ==> e[i] == (if i == a then true else e[a := false][i]);
    assert b != a by { assert e[a := false][b]; }
    p, q := if a < b then a else b, if a < b then b else a;
  }

  /** The syndrome of an error pattern of weight two is the sum of the two columns. */
  lemma TwoErrorSyndrome(k: nat, m: nat, codes: seq<Tuple>, e: Word, p: nat, q: nat)
    requires p < q < k + m == |e| && e == Xor(Unit(|e|, p), Unit(|e|, q))
    ensures ErrorSyndrome(k, m, codes, e) == Xor(Column(k, m, codes, p), Column(k, m, codes, q))
  {
    UnitSyndrome(k, m, codes, p);
    UnitSyndrome(k, m, codes, q);
    var u, v := Unit(|e|, p), Unit(|e|, q);
    forall j | 0 <= j < m
      ensures Parity(e, DecMask(k, codes, j)) == (Bit(DecMask(k, codes, j), p) != Bit(DecMask(k, codes, j), q))
    {
      ParityLinear(u, v, DecMask(k, codes, j));
      ParityOne(u, DecMask(k, codes, j), p);
      ParityOne(v, DecMask(k, codes, j), q);
    }
  }

  // ---- what the decoder makes of a syndrome ----

  /** Both forms of the error flags are: the linear flag, and nonzero without it. */
  lemma DecodeFlags(k: nat, m: nat, codes: seq<Tuple>, kind: Kind, w: Word)
    requires |w| == k + m && k <= |codes| && m > 0
    ensures var r := Decode(k, m, codes, kind, w);
            && r.syndrome == Syndrome(k, m, codes, kind.Inverted(), w)
            && r.err0 == Flag(kind.IsHamming(), r.syndrome)
            && r.err1 == (!r.err0 && RedOr(r.syndrome))
  {
    var s := Syndrome(k, m, codes, kind.Inverted(), w);
    if kind.IsHamming() && !s[m - 1] && RedOr(s) {
      var j :| 0 <= j < m && s[j];
      assert s[..m - 1][j];
    }
    if kind.IsHamming() && RedOr(s[..m - 1]) {
      var j :| 0 <= j < m - 1 && s[..m - 1][j];
      assert s[j];
    }
  }

  lemma NonZero(hamming: bool, s: Word)
    requires |s| > 0
    ensures RedOr(s) <==> s != Zeros(|s|)
    ensures Flag(hamming, s) ==> RedOr(s)
  {
    RedXorZeros(|s|);
    if !RedOr(s) { assert s == Zeros(|s|); }
  }

  /** The decoder in terms of the error pattern alone: data bit i is inverted by the error, and inverted
      again exactly when the error's syndrome is column i. */
  lemma DecodeOfError(k: nat, m: nat, codes: seq<Tuple>, kind: Kind, d: Word, e: Word)
    requires m > 0 && |d| == k && |e| == k + m && GoodMatrix(k, m, codes, kind.IsHamming())
    ensures var s := ErrorSyndrome(k, m, codes, e);
            var r := Decode(k, m, codes, kind, Xor(Encode(k, m, codes, kind.Inverted(), d), e));
            && r.syndrome == s
            && r.err0 == Flag(kind.IsHamming(), s)
            && r.err1 == (!r.err0 && RedOr(s))
            && |r.data| == k
            && forall i :: 0 <= i < k ==> r.data[i] == ((s == Column(k, m, codes, i)) != (d[i] != e[i]))
  {
    var c := Encode(k, m, codes, kind.Inverted(), d);
    var w := Xor(c, e);
    SyndromeOfError(k, m, codes, kind.Inverted(), d, e);
    DecodeFlags(k, m, codes, kind, w);
    EncodeKeepsData(k, m, codes, kind.Inverted(), d);
    var s := Syndrome(k, m, codes, kind.Inverted(), w);
    forall i | 0 <= i < k
      ensures ToNat(s) == CalcSyndrome(codes[i]) <==> s == Column(k, m, codes, i)
      ensures w[i] == (d[i] != e[i])
    {
      assert c[i] == c[..k][i] == d[i];
      assert ValidTuple(codes[..k][i], m);
      SyndromeMatch(s, codes[i], m);
    }
  }

  lemma NoError(k: nat, m: nat, codes: seq<Tuple>, kind: Kind, d: Word, e: Word)
    requires m > 0 && |d| == k && |e| == k + m && GoodMatrix(k, m, codes, kind.IsHamming())
    requires Ones(e) == 0
    ensures FpvAssertions(k, m, codes, kind, d, e)
  {
    hide Decode, Encode, Column, Ones;
    DecodeOfError(k, m, codes, kind, d, e);
    NoOnes(e);
    forall j | 0 <= j < m ensures !Parity(e, DecMask(k, codes, j)) { ParityNone(e, DecMask(k, codes, j)); }
    var s := ErrorSyndrome(k, m, codes, e);
    assert s == Zeros(m);
    NonZero(kind.IsHamming(), s);
    RedXorZeros(m);
    assert forall i :: 0 <= i < k ==> Flag(kind.IsHamming(), Column(k, m, codes, i));
  }

  /** A single error has its own column as syndrome, which no other bit shares. */
  lemma SingleErrorSyndrome(k: nat, m: nat, codes: seq<Tuple>, hamming: bool, e: Word)
    requires m > 0 && |e| == k + m && GoodMatrix(k, m, codes, hamming)
    requires Ones(e) == 1
    ensures var s := ErrorSyndrome(k, m, codes, e);
            && Flag(hamming, s) && RedOr(s)
            && forall i :: 0 <= i < k ==> (s == Column(k, m, codes, i)) == e[i]
  {
    var p := OneError(e);
    UnitSyndrome(k, m, codes, p);
    var s := Column(k, m, codes, p);
    assert ErrorSyndrome(k, m, codes, e) == s;
    NonZero(hamming, s);
    forall i | 0 <= i < k ensures (s == Column(k, m, codes, i)) == e[i] {
      if i < p {
        assert Column(k, m, codes, i) != s;
      } else if p < i {
        assert s != Column(k, m, codes, i);
      }
    }
  }

  /** A double error has a nonzero syndrome without the flag, hence no column. */
  lemma DoubleErrorSyndrome(k: nat, m: nat, codes: seq<Tuple>, hamming: bool, e: Word)
    requires m > 0 && |e| == k + m && GoodMatrix(k, m, codes, hamming)
    requires Ones(e) == 2
    ensures var s := ErrorSyndrome(k, m, codes, e);
            && !Flag(hamming, s) && RedOr(s)
            && forall i :: 0 <= i < k ==> s != Column(k, m, codes, i)
  {
    var p, q := TwoErrors(e);
    TwoErrorSyndrome(k, m, codes, e, p, q);
    var a, b := Column(k, m, codes, p), Column(k, m, codes, q);
    var s := Xor(a, b);
    assert ErrorSyndrome(k, m, codes, e) == s;
    FlagLinear(hamming, a, b);
    assert a != b;
    var j := DifferingIndex(a, b);
    assert s[j];
  }

  lemma SingleError(k: nat, m: nat, codes: seq<Tuple>, kind: Kind, d: Word, e: Word)
    requires m > 0 && |d| == k && |e| == k + m && GoodMatrix(k, m, codes, kind.IsHamming())
    requires Ones(e) == 1
    ensures FpvAssertions(k, m, codes, kind, d, e)
  {
    hide Decode, Encode, Column, Ones;
    DecodeOfError(k, m, codes, kind, d, e);
    SingleErrorSyndrome(k, m, codes, kind.IsHamming(), e);
  }

  lemma DoubleError(k: nat, m: nat, codes: seq<Tuple>, kind: Kind, d: Word, e: Word)
    requires m > 0 && |d| == k && |e| == k + m && GoodMatrix(k, m, codes, kind.IsHamming())
    requires Ones(e) == 2
    ensures FpvAssertions(k, m, codes, kind, d, e)
  {
    hide Decode, Encode, ErrorSyndrome, Column, Ones;
    DecodeOfError(k, m, codes, kind, d, e);
    DoubleErrorSyndrome(k, m, codes, kind.IsHamming(), e);
    EncodeKeepsData(k, m, codes, kind.Inverted(), d);
    var c := Encode(k, m, codes, kind.Inverted(), d);
    var r := Decode(k, m, codes, kind, Xor(c, e));
    assert r.data == Xor(c, e)[..k] by {
      forall i | 0 <= i < k ensures r.data[i] == Xor(c, e)[..k][i] { assert c[i] == c[..k][i]; }
    }
  }

  /** Main theorem: a good matrix gives a SECDED code, inverted or not. */
  lemma GoodMatrixIsSecded(k: nat, m: nat, codes: seq<Tuple>, kind: Kind)
    requires m > 0 && GoodMatrix(k, m, codes, kind.IsHamming())
    ensures Secded(k, m, codes, kind)
  {
    forall d: Word, e: Word | |d| == k && |e| == k + m && Ones(e) <= 2
      ensures FpvAssertions(k, m, codes, kind, d, e)
    {
      if Ones(e) == 0 {
        NoError(k, m, codes, kind, d, e);
      } else if Ones(e) == 1 {
        SingleError(k, m, codes, kind, d, e);
      } else {
        DoubleError(k, m, codes, kind, d, e);
      }
    }
  }

  /** A SECDED code gives the data back after any one flip of the stored codeword, and reports it. */
  lemma FlipCorrected(k: nat, m: nat, codes: seq<Tuple>, kind: Kind, d: Word, p: nat)
    requires m > 0 && k <= |codes| && Secded(k, m, codes, kind) && |d| == k && p < k + m
    ensures var c := Encode(k, m, codes, kind.Inverted(), d);
            var r := Decode(k, m, codes, kind, Xor(c, Unit(k + m, p)));
            r.data == d && r.err0 && !r.err1
  {
    hide Decode, Encode, Ones;
    var e := Unit(k + m, p);
    assert e == Zeros(k + m)[p := true];
    OnesOfUnit(k + m, p);
    assert FpvAssertions(k, m, codes, kind, d, e);
  }
}
