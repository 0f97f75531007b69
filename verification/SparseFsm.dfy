/** Search for a sparse state encoding: random words, kept when far enough from those kept before. */
module SparseFsm {
  import opened Bits

  const MAX_DRAWS: nat := 10000
  const MAX_RESTARTS: nat := 10000

  function Distance(a: Word, b: Word): nat
    requires |a| == |b|
  {
    Ones(Xor(a, b))
  }

  function Complement(w: Word): (r: Word)
    ensures |r| == |w|
  {
    seq(|w|, i requires 0 <= i < |w| => !w[i])
  }

  datatype Params = Params(minHd: nat, width: nat, minPopcnt: nat)

  ghost predicate Apart(p: Params, a: Word, b: Word)
    requires |a| == |b|
  {
    Distance(a, b) >= p.minHd && Complement(a) != b
  }

  /** A code as wanted: words of the right weight, pairwise far apart, none the complement of another. */
  ghost predicate GoodCode(p: Params, code: seq<Word>) {
    && (forall i :: 0 <= i < |code| ==> |code[i]| == p.width && p.minPopcnt <= Ones(code[i]) < p.width)
    && (forall i, j :: 0 <= i < j < |code| ==> Apart(p, code[i], code[j]))
  }

  // ---- distances ----

  lemma {:induction false} DistanceSymmetric(a: Word, b: Word)
    requires |a| == |b|
    ensures Distance(a, b) == Distance(b, a)
  {
    assert Xor(a, b) == Xor(b, a);
  }

  lemma {:induction false} OnesOfXor(a: Word, b: Word)
    requires |a| == |b|
    ensures Ones(Xor(a, b)) <= Ones(a) + Ones(b)
  {
    if a != [] {
      var n := |a| - 1;
      OnesOfXor(a[..n], b[..n]);
      assert Xor(a, b)[..n] == Xor(a[..n], b[..n]);
    }
  }

  lemma Triangle(a: Word, b: Word, c: Word)
    requires |a| == |b| == |c|
    ensures Distance(a, c) <= Distance(a, b) + Distance(b, c)
  {
    OnesOfXor(Xor(a, b), Xor(b, c));
    assert Xor(Xor(a, b), Xor(b, c)) == Xor(a, c);
  }

  lemma ApartSymmetric(p: Params, a: Word, b: Word)
    requires |a| == |b| && Apart(p, a, b)
    ensures Apart(p, b, a)
  {
    DistanceSymmetric(a, b);
    assert Complement(Complement(b)) == b;
  }

  /** Any two different states are apart, in either order. */
  lemma GoodPair(p: Params, code: seq<Word>, i: nat, j: nat)
    requires GoodCode(p, code) && i < |code| && j < |code| && i != j
    ensures |code[i]| == |code[j]| == p.width && Apart(p, code[i], code[j])
  {
    if i > j { ApartSymmetric(p, code[j], code[i]); }
  }

  /** Fewer flips than the minimum distance never turn one state into another. */
  lemma FlipsKeepStatesApart(p: Params, code: seq<Word>, i: nat, j: nat, flips: Word)
    requires GoodCode(p, code) && i < |code| && j < |code| && i != j
    requires |flips| == p.width && Ones(flips) < p.minHd
    ensures |code[i]| == p.width && Xor(code[i], flips) != code[j]
  {
    GoodPair(p, code, i, j);
    assert Xor(code[i], Xor(code[i], flips)) == flips;
    assert Ones(Xor(code[i], code[j])) >= p.minHd;
  }

  /** Flipping every bit of a state never gives a state. */
  lemma ComplementIsNoState(p: Params, code: seq<Word>, i: nat, j: nat)
    requires GoodCode(p, code) && i < |code| && j < |code| && p.width > 0
    ensures Complement(code[i]) != code[j]
  {
    if i != j {
      GoodPair(p, code, i, j);
    } else {
      assert Complement(code[i])[0] != code[i][0];
    }
  }

  /** Fewer flips than the least number of set bits never turn a state into the word of zeros. */
  lemma FlipsKeepZeroApart(p: Params, code: seq<Word>, i: nat, flips: Word)
    requires GoodCode(p, code) && i < |code| && |flips| == p.width && Ones(flips) < p.minPopcnt
    ensures |code[i]| == p.width && Xor(code[i], flips) != Zeros(p.width)
  {
    if Xor(code[i], flips) == Zeros(p.width) { XorIsZero(code[i], flips); }
  }

  lemma XorIsZero(a: Word, b: Word)
    requires |a| == |b| && Xor(a, b) == Zeros(|a|)
    ensures a == b
  {
    forall k | 0 <= k < |a| ensures a[k] == b[k] { assert !Xor(a, b)[k]; }
  }

  /** With at most half the minimum distance flipped the original state is the only nearest one. */
  lemma UniqueNearest(p: Params, code: seq<Word>, i: nat, j: nat, flips: Word)
    requires GoodCode(p, code) && i < |code| && j < |code| && i != j
    requires |flips| == p.width && p.minHd > 0 && Ones(flips) <= (p.minHd - 1) / 2
    ensures |code[i]| == |code[j]| == p.width
    ensures Distance(Xor(code[i], flips), code[i]) < Distance(Xor(code[i], flips), code[j])
  {
    GoodPair(p, code, i, j);
    var received := Xor(code[i], flips);
    assert Xor(received, code[i]) == flips;
    DistanceSymmetric(received, code[i]);
    Triangle(code[i], received, code[j]);
  }

  // ---- the search ----

  /** What a candidate must satisfy to join a code. */
  ghost predicate Fits(p: Params, w: Word, code: seq<Word>)
    requires forall i :: 0 <= i < |code| ==> |code[i]| == |w|
  {
    && p.minPopcnt <= Ones(w) < p.width
    && forall i :: 0 <= i < |code| ==> Apart(p, w, code[i])
  }

  lemma GoodMore(p: Params, code: seq<Word>, w: Word)
    requires GoodCode(p, code) && |w| == p.width
    ensures GoodCode(p, code + [w]) <==> Fits(p, w, code)
  {
    var more := code + [w];
    if Fits(p, w, code) {
      forall i, j | 0 <= i < j < |more| ensures Apart(p, more[i], more[j]) {
        if j == |code| { ApartSymmetric(p, w, code[i]); }
      }
    }
    if GoodCode(p, more) {
      assert more[|code|] == w;
      forall i | 0 <= i < |code| ensures Apart(p, w, code[i]) {
        assert more[i] == code[i];
        ApartSymmetric(p, code[i], w);
      }
    }
  }

  type Draws = nat -> Word

  ghost predicate WidthOk(p: Params, random: Draws) {
    forall i :: |random(i)| == p.width
  }

  /** The code after taking count candidates from position start in turn, each kept if the code stays good. */
  ghost function Greedy(p: Params, code: seq<Word>, random: Draws, start: nat, count: nat): seq<Word> {
    if count == 0 then code
    else
      var before := Greedy(p, code, random, start, count - 1);
      var w := random(start + count - 1);
      if GoodCode(p, before + [w]) then before + [w] else before
  }

  lemma {:induction false} GreedyGood(p: Params, code: seq<Word>, random: Draws, start: nat, count: nat)
    requires GoodCode(p, code)
    ensures GoodCode(p, Greedy(p, code, random, start, count))
  {
    if count > 0 { GreedyGood(p, code, random, start, count - 1); }
  }

  lemma {:induction false} GreedyGrows(p: Params, code: seq<Word>, random: Draws, start: nat, count: nat, more: nat)
    requires count <= more
    ensures Greedy(p, code, random, start, count) <= Greedy(p, code, random, start, more)
    decreases more
  {
    if count < more { GreedyGrows(p, code, random, start, count, more - 1); }
  }

  /** Every candidate that was passed over would spoil the code, also as it is in the end. */
  lemma {:induction false} GreedyMaximal(p: Params, code: seq<Word>, random: Draws, start: nat, count: nat, i: nat)
    requires i < count
    ensures var found := Greedy(p, code, random, start, count);
            var w := random(start + i);
            w in found || !GoodCode(p, found + [w])
    decreases count
  {
    var before, last := Greedy(p, code, random, start, count - 1), random(start + count - 1);
    var found := Greedy(p, code, random, start, count);
    if i < count - 1 {
      var w := random(start + i);
      GreedyMaximal(p, code, random, start, count - 1, i);
      if w !in found && found != before && GoodCode(p, found + [w]) {
        assert found == before + [last];
        GoodWithout(p, before, last, w);
      }
    }
  }

  lemma GoodWithout(p: Params, code: seq<Word>, x: Word, w: Word)
    requires GoodCode(p, code + [x] + [w])
    ensures GoodCode(p, code + [w])
  {
    var all, some := code + [x] + [w], code + [w];
    assert forall i :: 0 <= i < |code| ==> some[i] == all[i];
    assert some[|code|] == all[|code| + 1];
  }

  /** The states found are those at the start and drawn candidates. */
  lemma {:induction false} GreedyDrawn(p: Params, code: seq<Word>, random: Draws, start: nat, count: nat, w: Word)
    requires w in Greedy(p, code, random, start, count)
    ensures w in code || exists i :: start <= i < start + count && random(i) == w
    decreases count
  {
    if count > 0 && w in Greedy(p, code, random, start, count - 1) {
      GreedyDrawn(p, code, random, start, count - 1, w);
    }
  }

  /** The position of the first candidate after r restarts: one draw up front, and one more with each restart. */
  function Start(r: nat): nat {
    1 + r * (MAX_DRAWS + 1)
  }

  /** The code the r-th attempt starts from. */
  function Base(code: seq<Word>, r: nat): seq<Word> {
    if r == 0 then code else []
  }

  /** The r-th attempt finds enough states. */
  ghost predicate Succeeds(p: Params, code: seq<Word>, random: Draws, r: nat, states: nat) {
    |Greedy(p, Base(code, r), random, Start(r), MAX_DRAWS)| >= states
  }

  /** The search stands at n draws of attempt r, and every attempt before has failed. */
  ghost predicate Searching(
    p: Params, code: seq<Word>, random: Draws, states: nat, r: nat, n: nat, now: seq<Word>)
  {
    && n <= MAX_DRAWS && now == Greedy(p, Base(code, r), random, Start(r), n)
    && (forall q: nat :: q < r ==> !Succeeds(p, code, random, q, states))
  }

  /** Some attempt succeeds. */
  ghost predicate Findable(p: Params, code: seq<Word>, random: Draws, states: nat) {
    exists r: nat :: r < MAX_RESTARTS && Succeeds(p, code, random, r, states)
  }

  lemma Begin(p: Params, code: seq<Word>, random: Draws, states: nat)
    ensures Searching(p, code, random, states, 0, 0, code)
  {
  }

  lemma Draw(p: Params, code: seq<Word>, random: Draws, states: nat, r: nat, n: nat, now: seq<Word>)
    requires Searching(p, code, random, states, r, n, now) && n < MAX_DRAWS
    ensures var w := random(Start(r) + n);
            Searching(p, code, random, states, r, n + 1, if GoodCode(p, now + [w]) then now + [w] else now)
  {
  }

  lemma Restart(p: Params, code: seq<Word>, random: Draws, states: nat, r: nat, now: seq<Word>)
    requires Searching(p, code, random, states, r, MAX_DRAWS, now) && |now| < states
    ensures Searching(p, code, random, states, r + 1, 0, [])
  {
  }

  lemma NotFindable(p: Params, code: seq<Word>, random: Draws, states: nat)
    requires Searching(p, code, random, states, MAX_RESTARTS, 0, [])
    ensures !Findable(p, code, random, states)
  {
  }

  lemma Found(p: Params, code: seq<Word>, random: Draws, states: nat, r: nat, n: nat, now: seq<Word>)
    requires Searching(p, code, random, states, r, n, now) && |now| >= states && r < MAX_RESTARTS
    ensures Findable(p, code, random, states)
  {
    GreedyGrows(p, Base(code, r), random, Start(r), n, MAX_DRAWS);
    assert Succeeds(p, code, random, r, states);
  }

  class EncodingGenerator {
    const numStates: nat
    const p: Params
    var encodings: seq<Word>

    constructor (minHd: nat, numStates: nat, width: nat, avoidZero: bool)
      ensures encodings == [] && this.numStates == numStates
      ensures p == Params(minHd, width, if avoidZero then minHd else 1)
      ensures GoodCode(p, encodings)
    {
      encodings, this.numStates := [], numStates;
      p := Params(minHd, width, if avoidZero then minHd else 1);
    }

    /** A candidate is accepted exactly when the code stays good. */
    method CheckCandidate(cand: Word) returns (ok: bool)
      requires GoodCode(p, encodings) && |cand| == p.width
      ensures ok <==> GoodCode(p, encodings + [cand])
    {
      GoodMore(p, encodings, cand);
      var popCnt := Ones(cand);
      if popCnt >= p.width || popCnt < p.minPopcnt { return false; }
      for i := 0 to |encodings|
        invariant forall k :: 0 <= k < i ==> Apart(p, cand, encodings[k])
      {
        var k := encodings[i];
        if Complement(cand) == k { return false; }
        if Distance(cand, k) < p.minHd { return false; }
      }
      return true;
    }

    /** Draws until there are enough states, starting over when an attempt takes too long. The search succeeds if and
        only if one of the attempts does, and returns what the first such attempt finds. */
    method Generate(random: Draws) returns (found: bool)
      requires GoodCode(p, encodings) && |encodings| <= numStates && WidthOk(p, random)
      modifies this`encodings
      ensures GoodCode(p, encodings)
      ensures found <==> Findable(p, old(encodings), random, numStates)
      ensures found ==> |encodings| == numStates
      ensures found ==> exists r: nat, n: nat ::
                r < MAX_RESTARTS && Searching(p, old(encodings), random, numStates, r, n, encodings)
    {
      hide GoodCode, Searching, Findable, Start;
      var drawn: nat := 1;
      var numDraws, numRestarts := 0, 0;
      assert drawn == Start(0) by { StartAt(0); }
      Begin(p, encodings, random, numStates);
      while |encodings| < numStates
        invariant GoodCode(p, encodings) && |encodings| <= numStates
        invariant numDraws <= MAX_DRAWS && numRestarts < MAX_RESTARTS
        invariant drawn == Start(numRestarts) + numDraws
        invariant Searching(p, old(encodings), random, numStates, numRestarts, numDraws, encodings)
        decreases MAX_RESTARTS - numRestarts, MAX_DRAWS - numDraws
      {
        if numDraws >= MAX_DRAWS {
          Restart(p, old(encodings), random, numStates, numRestarts, encodings);
          StartAt(numRestarts);
          numDraws := 0;
          numRestarts := numRestarts + 1;
          drawn := drawn + 1;
          encodings := [];
          EmptyIsGood(p);
        }
        if numRestarts >= MAX_RESTARTS {
          NotFindable(p, old(encodings), random, numStates);
          return false;
        }
        Draw(p, old(encodings), random, numStates, numRestarts, numDraws, encodings);
        numDraws := numDraws + 1;
        var cand := random(drawn);
        drawn := drawn + 1;
        var ok := CheckCandidate(cand);
        if ok { encodings := encodings + [cand]; }
      }
      Found(p, old(encodings), random, numStates, numRestarts, numDraws, encodings);
      return true;
    }
  }

  lemma StartAt(r: nat)
    ensures Start(0) == 1 && Start(r + 1) == Start(r) + 10001
  {
  }

  lemma EmptyIsGood(p: Params)
    ensures GoodCode(p, [])
  {
  }
}
