/** Words as bit sequences, least significant bit first, and natural numbers read as bit masks. */
module Bits {

  type Word = seq<bool>

  type Word64 = w: Word | |w| == 64 witness Zeros(64)

  function Zeros(n: nat): (w: Word)
    ensures |w| == n
  {
    seq(n, _ => false)
  }

  function Xor(a: Word, b: Word): (w: Word)
    requires |a| == |b|
    ensures |w| == |a|
  {
    seq(|a|, i requires 0 <= i < |a| => a[i] != b[i])
  }

  /** Number of set bits. */
  function Ones(w: Word): nat {
    if w == [] then 0 else Ones(w[..|w| - 1]) + (if w[|w| - 1] then 1 else 0)
  }

  function Pow2(n: nat): (p: nat)
    ensures p > 0
  {
    if n == 0 then 1 else 2 * Pow2(n - 1)
  }

  /** Bit `i` of the number `n`: `(n >> i) & 1`. */
  predicate Bit(n: nat, i: nat) {
    if i == 0 then n % 2 == 1 else Bit(n / 2, i - 1)
  }

  /** The number a word stands for. */
  function ToNat(w: Word): nat {
    if w == [] then 0 else ToNat(w[..|w| - 1]) + (if w[|w| - 1] then Pow2(|w| - 1) else 0)
  }

  /** The xor-reduction `^(w & mask)`: bits of the mask beyond the word are ignored. */
  function Parity(w: Word, mask: nat): bool {
    if w == [] then false
    else Parity(w[..|w| - 1], mask) != (w[|w| - 1] && Bit(mask, |w| - 1))
  }

  /** The xor-reduction `^w`. */
  function RedXor(w: Word): bool {
    if w == [] then false else RedXor(w[..|w| - 1]) != w[|w| - 1]
  }

  /** `w ^ mask` for a mask given as a number. */
  function XorMask(w: Word, mask: nat): (r: Word)
    ensures |r| == |w|
  {
    seq(|w|, i requires 0 <= i < |w| => w[i] != Bit(mask, i))
  }

  lemma XorCancel(a: Word, b: Word)
    requires |a| == |b|
    ensures Xor(Xor(a, b), b) == a
  {
  }

  lemma {:induction false} DifferingIndex(a: Word, b: Word) returns (j: nat)
    requires |a| == |b| && a != b
    ensures j < |a| && a[j] != b[j]
  {
    j :| j < |a| && a[j] != b[j];
  }

  // ---- numbers and their bits ----

  lemma {:induction false} Pow2Monotone(a: nat, b: nat)
    requires a <= b
    ensures Pow2(a) <= Pow2(b)
    ensures a < b ==> 2 * Pow2(a) <= Pow2(b)
    decreases b - a
  {
    if a < b { Pow2Monotone(a, b - 1); }
  }

  lemma {:induction false} Pow2Add(a: nat, b: nat)
    ensures Pow2(a + b) == Pow2(a) * Pow2(b)
  {
    if b > 0 {
      Pow2Add(a, b - 1);
      assert Pow2(a + b) == 2 * Pow2(a + (b - 1)) && Pow2(b) == 2 * Pow2(b - 1);
      hide Pow2;
      Doubled(Pow2(a), Pow2(b - 1));
    }
  }

  lemma Doubled(x: nat, y: nat)
    ensures x * (2 * y) == 2 * (x * y)
  {
  }

  lemma FourBits(v: nat, b: nat)
    requires b < 4
    ensures Bit(v, b) == ((if b == 0 then v else if b == 1 then v / 2 else if b == 2 then v / 4 else v / 8) % 2 == 1)
  {
    if b >= 1 { assert Bit(v, b) == Bit(v / 2, b - 1); }
    if b >= 2 { assert Bit(v / 2, b - 1) == Bit(v / 2 / 2, b - 2); }
    if b >= 3 { assert Bit(v / 2 / 2, b - 2) == Bit(v / 2 / 2 / 2, b - 3); }
  }

  /** Bits of a number at or above its size are clear. */
  lemma {:induction false} HighBits(x: nat, n: nat, i: nat)
    requires x < Pow2(n) && n <= i
    ensures !Bit(x, i)
    decreases i
  {
    if n > 0 {
      HighBits(x / 2, n - 1, i - 1);
    } else if i > 0 {
      HighBits(0, 0, i - 1);
    }
  }

  /** Adding a multiple of 2^n leaves the bits below n alone. */
  lemma {:induction false} LowBits(x: nat, n: nat, q: nat, i: nat)
    requires i < n
    ensures Bit(x + q * Pow2(n), i) == Bit(x, i)
  {
    assert q * Pow2(n) == 2 * (q * Pow2(n - 1));
    if i > 0 { LowBits(x / 2, n - 1, q, i - 1); }
  }

  /** Setting the bit just above a number that fits below it. */
  lemma {:induction false} AddPow2(x: nat, n: nat, i: nat)
    requires x < Pow2(n)
    ensures Bit(x + Pow2(n), i) == (i == n || Bit(x, i))
  {
    if n == 0 {
      if i > 0 { HighBits(0, 0, i - 1); }
    } else if i > 0 {
      AddPow2(x / 2, n - 1, i - 1);
    }
  }

  lemma {:induction false} ToNatBound(w: Word)
    ensures ToNat(w) < Pow2(|w|)
  {
    if w != [] { ToNatBound(w[..|w| - 1]); }
  }

  lemma {:induction false} ToNatBit(w: Word, i: nat)
    ensures Bit(ToNat(w), i) == (i < |w| && w[i])
  {
    if w == [] {
      HighBits(0, 0, i);
    } else {
      var v := w[..|w| - 1];
      ToNatBit(v, i);
      ToNatBound(v);
      AddPow2(ToNat(v), |v|, i);
    }
  }

  lemma ToNatInjective(a: Word, b: Word)
    requires |a| == |b| && ToNat(a) == ToNat(b)
    ensures a == b
  {
    forall i | 0 <= i < |a| ensures a[i] == b[i] {
      ToNatBit(a, i);
      ToNatBit(b, i);
    }
  }

  /** Numbers below 2^n that differ have a bit below n on which they differ. */
  lemma {:induction false} DifferingBit(a: nat, b: nat, n: nat) returns (j: nat)
    requires a < Pow2(n) && b < Pow2(n) && a != b
    ensures j < n && Bit(a, j) != Bit(b, j)
  {
    if a % 2 != b % 2 {
      j := 0;
    } else {
      j := DifferingBit(a / 2, b / 2, n - 1);
      j := j + 1;
    }
  }

  // ---- numbers as words ----

  /** The low n bits of a number. */
  function FromNat(v: nat, n: nat): (w: Word)
    ensures |w| == n
  {
    seq(n, i requires 0 <= i < n => Bit(v, i))
  }

  lemma {:induction false} SameBits(a: nat, b: nat, n: nat)
    requires a < Pow2(n) && b < Pow2(n) && forall i :: 0 <= i < n ==> Bit(a, i) == Bit(b, i)
    ensures a == b
  {
    if a != b { var j := DifferingBit(a, b, n); }
  }

  lemma FromToNat(w: Word)
    ensures FromNat(ToNat(w), |w|) == w
  {
    forall i | 0 <= i < |w| ensures Bit(ToNat(w), i) == w[i] { ToNatBit(w, i); }
  }

  lemma ToFromNat(v: nat, n: nat)
    requires v < Pow2(n)
    ensures ToNat(FromNat(v, n)) == v
  {
    var w := FromNat(v, n);
    ToNatBound(w);
    forall i | 0 <= i < n ensures Bit(ToNat(w), i) == Bit(v, i) { ToNatBit(w, i); }
    SameBits(ToNat(w), v, n);
  }

  /** The bits of a number below another one shifted up. */
  lemma {:induction false} JoinedBits(a: nat, n: nat, b: nat, i: nat)
    requires a < Pow2(n)
    ensures Bit(a + Pow2(n) * b, i) == if i < n then Bit(a, i) else Bit(b, i - n)
    decreases n
  {
    if n == 0 {
      assert a == 0;
    } else {
      var half := Pow2(n - 1) * b;
      assert Pow2(n) * b == 2 * half by { Doubled(b, Pow2(n - 1)); }
      TwiceMore(a, half);
      if i > 0 { JoinedBits(a / 2, n - 1, b, i - 1); }
    }
  }

  lemma TwiceMore(a: nat, half: nat)
    ensures (a + 2 * half) / 2 == a / 2 + half && (a + 2 * half) % 2 == a % 2
  {
  }

  /** The numbers of the two parts that a word is cut into. */
  lemma ToNatCut(w: Word, n: nat)
    requires n <= |w|
    ensures ToNat(w[..n]) == ToNat(w) % Pow2(n) && ToNat(w[n..]) == ToNat(w) / Pow2(n)
    ensures ToNat(w) == ToNat(w[..n]) + Pow2(n) * ToNat(w[n..])
  {
    hide Pow2, Bit, ToNat;
    ToNatBound(w[..n]);
    ToNatJoin(w[..n], w[n..]);
    assert w == w[..n] + w[n..];
    Quotient(ToNat(w[..n]), ToNat(w[n..]), Pow2(n));
  }

  lemma {:induction false} ToNatJoin(a: Word, b: Word)
    ensures ToNat(a + b) == ToNat(a) + Pow2(|a|) * ToNat(b)
  {
    hide ToNat, Pow2;
    if b == [] {
      assert a + b == a;
      NoBits();
    } else {
      var n := |b| - 1;
      ToNatJoin(a, b[..n]);
      ToNatMore(a + b[..n], b[n]);
      ToNatMore(b[..n], b[n]);
      assert a + b == (a + b[..n]) + [b[n]] && b == b[..n] + [b[n]];
      Pow2Add(|a|, n);
      Distributed(Pow2(|a|), ToNat(b[..n]), Pow2(n));
    }
  }

  lemma NoBits()
    ensures ToNat([]) == 0
  {
  }

  lemma ToNatMore(w: Word, b: bool)
    ensures ToNat(w + [b]) == ToNat(w) + if b then Pow2(|w|) else 0
  {
    assert (w + [b])[..|w|] == w;
  }

  lemma Distributed(p: nat, q: nat, r: nat)
    ensures p * (q + r) == p * q + p * r
  {
  }

  lemma Quotient(a: nat, b: nat, p: nat)
    requires a < p
    ensures (a + p * b) % p == a && (a + p * b) / p == b
  {
    DividedBy(a + p * b, p, b, a);
  }

  lemma DividedBy(v: nat, p: nat, q: nat, rest: nat)
    requires rest < p && v == p * q + rest
    ensures v / p == q && v % p == rest
  {
    var d := v / p - q;
    assert v == p * (v / p) + v % p;
    assert p * d == p * (v / p) - p * q;
    SmallMultiple(p, d);
  }

  lemma SmallMultiple(p: int, d: int)
    requires -p < p * d < p
    ensures d == 0
  {
    if d >= 1 {
      AtLeast(p, d);
      assert false;
    } else if d <= -1 {
      AtLeast(p, -d);
      assert false;
    }
  }

  lemma AtLeast(p: int, d: int)
    requires p >= 0 && d >= 1
    ensures p * d >= p && p * -d <= -p
  {
    assert p * d == p + p * (d - 1);
  }

  // ---- `&`, `|` and `^` on numbers ----

  function BitAnd(a: nat, b: nat): nat {
    if a == 0 || b == 0 then 0
    else 2 * BitAnd(a / 2, b / 2) + (if a % 2 == 1 && b % 2 == 1 then 1 else 0)
  }

  lemma {:induction false} BitAndBit(a: nat, b: nat, i: nat)
    ensures Bit(BitAnd(a, b), i) == (Bit(a, i) && Bit(b, i))
    decreases i
  {
    if a == 0 || b == 0 {
      HighBits(0, 0, i);
    } else if i > 0 {
      BitAndBit(a / 2, b / 2, i - 1);
    }
  }

  function BitOr(a: nat, b: nat): nat
    decreases a + b
  {
    if a == 0 then b else if b == 0 then a
    else 2 * BitOr(a / 2, b / 2) + (if a % 2 == 1 || b % 2 == 1 then 1 else 0)
  }

  lemma {:induction false} BitOrBit(a: nat, b: nat, i: nat)
    ensures Bit(BitOr(a, b), i) == (Bit(a, i) || Bit(b, i))
    decreases i
  {
    if a == 0 || b == 0 {
      HighBits(0, 0, i);
    } else if i > 0 {
      BitOrBit(a / 2, b / 2, i - 1);
    }
  }

  lemma {:induction false} BitOrBound(a: nat, b: nat, n: nat)
    requires a < Pow2(n) && b < Pow2(n)
    ensures BitOr(a, b) < Pow2(n)
  {
    if n > 0 { BitOrBound(a / 2, b / 2, n - 1); }
  }

  function BitXor(a: nat, b: nat): nat
    decreases a + b
  {
    if a == 0 then b else if b == 0 then a
    else 2 * BitXor(a / 2, b / 2) + (if a % 2 != b % 2 then 1 else 0)
  }

  lemma {:induction false} BitXorBit(a: nat, b: nat, i: nat)
    ensures Bit(BitXor(a, b), i) == (Bit(a, i) != Bit(b, i))
    decreases i
  {
    if a == 0 || b == 0 {
      HighBits(0, 0, i);
    } else if i > 0 {
      BitXorBit(a / 2, b / 2, i - 1);
    }
  }

  lemma {:induction false} BitXorBound(a: nat, b: nat, n: nat)
    requires a < Pow2(n) && b < Pow2(n)
    ensures BitXor(a, b) < Pow2(n)
  {
    if n > 0 { BitXorBound(a / 2, b / 2, n - 1); }
  }

  lemma {:induction false} Pow2Exceeds(n: nat)
    ensures n < Pow2(n)
  {
    if n > 0 { Pow2Exceeds(n - 1); }
  }

  lemma XorOfNumbers(a: nat, b: nat, n: nat)
    ensures Xor(FromNat(a, n), FromNat(b, n)) == FromNat(BitXor(a, b), n)
  {
    forall i | 0 <= i < n ensures Bit(BitXor(a, b), i) == (Bit(a, i) != Bit(b, i)) { BitXorBit(a, b, i); }
  }

  // ---- parities ----

  lemma {:induction false} ParityLinear(a: Word, b: Word, mask: nat)
    requires |a| == |b|
    ensures Parity(Xor(a, b), mask) == (Parity(a, mask) != Parity(b, mask))
  {
    if a != [] {
      var n := |a| - 1;
      assert Xor(a, b)[..n] == Xor(a[..n], b[..n]);
      ParityLinear(a[..n], b[..n], mask);
    }
  }

  lemma {:induction false} RedXorLinear(a: Word, b: Word)
    requires |a| == |b|
    ensures RedXor(Xor(a, b)) == (RedXor(a) != RedXor(b))
  {
    if a != [] {
      var n := |a| - 1;
      assert Xor(a, b)[..n] == Xor(a[..n], b[..n]);
      RedXorLinear(a[..n], b[..n]);
    }
  }

  /** A parity only depends on the masked bits of the word. */
  lemma {:induction false} ParityAgree(a: Word, b: Word, x: nat, y: nat)
    requires |a| <= |b|
    requires forall i :: 0 <= i < |a| ==> (a[i] && Bit(x, i)) == (b[i] && Bit(y, i))
    requires forall i :: |a| <= i < |b| ==> !(b[i] && Bit(y, i))
    ensures Parity(a, x) == Parity(b, y)
    decreases |b|
  {
    if |a| < |b| {
      ParityAgree(a, b[..|b| - 1], x, y);
    } else if a != [] {
      ParityAgree(a[..|a| - 1], b[..|b| - 1], x, y);
    }
  }

  lemma {:induction false} ParityNone(w: Word, mask: nat)
    requires forall i :: 0 <= i < |w| ==> !(w[i] && Bit(mask, i))
    ensures !Parity(w, mask)
  {
    if w != [] { ParityNone(w[..|w| - 1], mask); }
  }

  lemma {:induction false} ParityOne(w: Word, mask: nat, p: nat)
    requires p < |w|
    requires forall i :: 0 <= i < |w| ==> w[i] == (i == p)
    ensures Parity(w, mask) == Bit(mask, p)
  {
    if p == |w| - 1 {
      ParityNone(w[..p], mask);
    } else {
      ParityOne(w[..|w| - 1], mask, p);
    }
  }

  lemma {:induction false} NoOnes(w: Word)
    requires Ones(w) == 0
    ensures w == Zeros(|w|)
  {
    if w != [] { NoOnes(w[..|w| - 1]); }
  }

  /** A word with a set bit is one bit p away from a word with one set bit fewer. */
  lemma {:induction false} PickOne(w: Word) returns (p: nat)
    requires Ones(w) > 0
    ensures p < |w| && w[p] && Ones(w[p := false]) == Ones(w) - 1
  {
    var n := |w| - 1;
    if w[n] {
      p := n;
      assert w[p := false][..n] == w[..n];
    } else {
      p := PickOne(w[..n]);
      assert w[p := false][..n] == w[..n][p := false];
    }
  }

  lemma {:induction false} OnesOfZeros(n: nat)
    ensures Ones(Zeros(n)) == 0
  {
    if n > 0 {
      assert Zeros(n)[..n - 1] == Zeros(n - 1);
      OnesOfZeros(n - 1);
    }
  }

  lemma {:induction false} OnesOfUnit(n: nat, p: nat)
    requires p < n
    ensures Ones(Zeros(n)[p := true]) == 1
  {
    var w := Zeros(n)[p := true];
    if p == n - 1 {
      assert w[..n - 1] == Zeros(n - 1);
      OnesOfZeros(n - 1);
    } else {
      assert w[..n - 1] == Zeros(n - 1)[p := true];
      OnesOfUnit(n - 1, p);
    }
  }
}
