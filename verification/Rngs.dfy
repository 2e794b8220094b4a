/** Bounded draws from a 64-bit generator by multiply-shift with rejection, and the generator itself.

    Uniformity is stated by counting: how many of the 2^64 words a draw accepts and maps to each result. */
module Rngs {
  import opened Arithmetic
  import opened Errors
  import opened Ranges
  import opened Shuffles

  const WORDS: nat := 0x1_0000_0000_0000_0000

  // ---- one word ------------------------------------------------------------------

  /** The two halves of the 128-bit product. */
  function High(word: nat, bound: nat): nat { word * bound / WORDS }

  function Low(word: nat, bound: nat): nat { word * bound % WORDS }

  /** 2^64 mod bound, computed as the source does with 64-bit negation. */
  function Threshold(bound: nat): nat
    requires 0 < bound <= WORDS
  {
    (WORDS - bound) % bound
  }

  /** Whether a word is used. The first comparison saves the division in nearly every draw. */
  predicate Accepted(word: nat, bound: nat)
    requires 0 < bound <= WORDS
  {
    Low(word, bound) >= bound || Low(word, bound) >= Threshold(bound)
  }

  lemma ModDropsOne(n: nat, b: nat)
    requires 0 < b <= n
    ensures (n - b) % b == n % b && (n - b) / b == n / b - 1
  {
    var q, r := n / b, n % b;
    assert n - b == b * (q - 1) + r;
    QuotientIs(n - b, b, q - 1, r);
  }

  /** The early test rejects exactly the words that the plain test against 2^64 mod bound rejects. */
  lemma EarlyTestIsExact(word: nat, bound: nat)
    requires 0 < bound <= WORDS
    ensures Accepted(word, bound) <==> Low(word, bound) >= WORDS % bound
  {
    ModDropsOne(WORDS, bound);
  }

  lemma RejectedLow(word: nat, bound: nat)
    requires 0 < bound <= WORDS && Low(word, bound) < Threshold(bound)
    ensures !Accepted(word, bound)
  {
  }

  lemma ResultBelowBound(word: nat, bound: nat)
    requires word < WORDS && bound > 0
    ensures High(word, bound) < bound
  {
    var p := word * bound;
    assert p == WORDS * (p / WORDS) + p % WORDS;
    assert (WORDS - word) * bound == WORDS * bound - p;
    Positive(WORDS - word, bound);
    assert WORDS * (p / WORDS - bound) == WORDS * (p / WORDS) - WORDS * bound;
    Positive(WORDS, p / WORDS - bound);
  }

  lemma Positive(n: nat, x: int)
    requires n > 0
    ensures x >= 0 ==> n * x >= 0
    ensures x > 0 ==> n * x > 0
  {
  }

  // ---- how many words give each result ---------------------------------------------

  /** The words a draw accepts and turns into `result`. */
  ghost function WordsFor(bound: nat, result: nat): set<nat>
    requires 0 < bound <= WORDS
  {
    set word: nat | word < WORDS && Accepted(word, bound) && High(word, bound) == result
  }

  /** The least word whose product reaches `x`. */
  function Reaching(x: nat, bound: nat): nat
    requires bound > 0
  {
    (x + bound - 1) / bound
  }

  lemma ReachingIsLeast(x: nat, bound: nat, word: nat)
    requires bound > 0
    ensures word * bound >= x <==> word >= Reaching(x, bound)
  {
    var c := Reaching(x, bound);
    ReachingBounds(x, bound);
    if word >= c {
      Ordered(bound, c, word);
    } else {
      Ordered(bound, word, c - 1);
    }
  }

  lemma ReachingBounds(x: nat, bound: nat)
    requires bound > 0
    ensures var c := Reaching(x, bound); bound * (c - 1) < x <= bound * c
  {
    var c: int, r: int := Reaching(x, bound), (x + bound - 1) % bound;
    assert bound * c == x + bound - 1 - r;
    assert bound * (c - 1) == bound * c - bound;
  }

  lemma Ordered(n: int, a: int, b: int)
    requires n > 0 && a <= b
    ensures n * a <= n * b
  {
    Positive(n, b - a);
    assert n * (b - a) == n * b - n * a;
  }

  /** A word is accepted for a result exactly when its product lies in the upper part of that result's block. */
  lemma BlockOf(bound: nat, result: nat, word: nat)
    requires 0 < bound <= WORDS && word < WORDS
    ensures Accepted(word, bound) && High(word, bound) == result
       <==> WORDS * result + WORDS % bound <= word * bound < WORDS * result + WORDS
  {
    EarlyTestIsExact(word, bound);
    var p := word * bound;
    assert p == WORDS * (p / WORDS) + p % WORDS;
    if WORDS * result + WORDS % bound <= p < WORDS * result + WORDS {
      QuotientIs(p, WORDS, result, p - WORDS * result);
    }
  }

  /** The first of the words for a result. */
  function LeastFor(bound: nat, result: nat): nat
    requires bound > 0
  {
    Reaching(WORDS * result + WORDS % bound, bound)
  }

  /** The words for one result are consecutive. */
  lemma WordsAreConsecutive(bound: nat, result: nat, word: nat)
    requires 0 < bound <= WORDS && result < bound
    ensures word < WORDS && Accepted(word, bound) && High(word, bound) == result
       <==> LeastFor(bound, result) <= word < LeastFor(bound, result) + WORDS / bound
  {
    StretchEnds(WORDS * result + WORDS % bound, bound, WORDS / bound, word);
    assert bound * (WORDS / bound) == WORDS - WORDS % bound;
    BlockEnds(bound, result, word);
    if word < WORDS {
      BlockOf(bound, result, word);
    }
  }

  /** A stretch of length bound * many holds exactly `many` products. */
  lemma StretchEnds(start: nat, bound: nat, many: nat, word: nat)
    requires bound > 0
    ensures start <= word * bound < start + bound * many
       <==> Reaching(start, bound) <= word < Reaching(start, bound) + many
  {
    ReachingIsLeast(start, bound, word);
    if word >= many {
      ReachingIsLeast(start, bound, word - many);
      assert bound * (word - many) == bound * word - bound * many;
    } else {
      Positive(bound, many - word);
      assert bound * (many - word) == bound * many - bound * word;
    }
  }

  /** Every result below the bound is given by exactly floor(2^64 / bound) words. */
  lemma ExactlyUniform(bound: nat, result: nat)
    requires 0 < bound <= WORDS && result < bound
    ensures |WordsFor(bound, result)| == WORDS / bound
  {
    var range := Range(LeastFor(bound, result), LeastFor(bound, result) + WORDS / bound);
    forall word: nat ensures word in WordsFor(bound, result) <==> word in Span(range) {
      WordsAreConsecutive(bound, result, word);
    }
    assert WordsFor(bound, result) == Span(range);
    SpanSize(range);
  }

  lemma BlockEnds(bound: nat, result: nat, word: nat)
    requires 0 < bound && result < bound
    ensures word * bound < WORDS * result + WORDS ==> word < WORDS
  {
    assert WORDS * (result + 1) <= WORDS * bound;
    if word >= WORDS {
      assert word * bound >= WORDS * bound;
    }
  }

  /** The words giving any result under `limit`. */
  ghost function WordsUnder(bound: nat, limit: nat): set<nat>
    requires 0 < bound <= WORDS
  {
    set word: nat | word < WORDS && Accepted(word, bound) && High(word, bound) < limit
  }

  lemma OneMore(bound: nat, limit: nat)
    requires 0 < bound <= WORDS && limit < bound
    ensures WordsUnder(bound, limit + 1) == WordsUnder(bound, limit) + WordsFor(bound, limit)
    ensures WordsUnder(bound, limit) !! WordsFor(bound, limit)
  {
  }

  lemma DisjointSizes(a: set<nat>, b: set<nat>)
    requires a !! b
    ensures |a + b| == |a| + |b|
  {
  }

  lemma Distributes(a: nat, b: nat)
    ensures (a + 1) * b == a * b + b
  {
  }

  /** A draw is under `limit` with probability exactly limit / bound: what a chance of that ratio promises. */
  lemma {:induction false} ChanceIsExact(bound: nat, limit: nat)
    requires 0 < bound <= WORDS && limit <= bound
    ensures |WordsUnder(bound, limit)| == limit * (WORDS / bound)
  {
    if limit > 0 {
      var less := limit - 1;
      OneMore(bound, less);
      ChanceIsExact(bound, less);
      ExactlyUniform(bound, less);
      DisjointSizes(WordsUnder(bound, less), WordsFor(bound, less));
      Distributes(less, WORDS / bound);
    }
  }

  ghost function Rejected(bound: nat): set<nat>
    requires 0 < bound <= WORDS
  {
    set word: nat | word < WORDS && !Accepted(word, bound)
  }

  lemma AcceptedOrRejected(bound: nat)
    requires 0 < bound <= WORDS
    ensures Rejected(bound) + WordsUnder(bound, bound) == Span(Range(0, WORDS))
    ensures Rejected(bound) !! WordsUnder(bound, bound)
  {
    forall word: nat | word < WORDS ensures High(word, bound) < bound {
      ResultBelowBound(word, bound);
    }
  }

  lemma CountBothSides(bound: nat)
    requires 0 < bound <= WORDS
    ensures |Rejected(bound)| + |WordsUnder(bound, bound)| == WORDS
  {
    AcceptedOrRejected(bound);
    DisjointSizes(Rejected(bound), WordsUnder(bound, bound));
    SpanSize(Range(0, WORDS));
  }

  /** Exactly 2^64 mod bound words are rejected, always fewer than half. */
  lemma FewerThanHalfRejected(bound: nat)
    requires 0 < bound <= WORDS
    ensures |Rejected(bound)| == WORDS % bound
    ensures 2 * |Rejected(bound)| < WORDS
  {
    CountBothSides(bound);
    ChanceIsExact(bound, bound);
    QuotientPositive(WORDS, bound);
  }

  lemma QuotientPositive(n: nat, b: nat)
    requires 0 < b <= n
    ensures 2 * (n % b) < n
    ensures n == b * (n / b) + n % b
  {
    var q, r := n / b, n % b;
    assert n == b * q + r;
    Positive(b, q - 1);
    assert b * q == b + b * (q - 1);
  }

  // ---- the generator ---------------------------------------------------------------

  const INCREMENT: bv64 := 0x9E37_79B9_7F4A_7C15

  /** SplitMix64's mixing of one counter value. */
  function Mixed(z: bv64): bv64 { Shifted31(Shifted27(Shifted30(z) * 0xBF58_476D_1CE4_E5B9) * 0x94D0_49BB_1331_11EB) }

  function Shifted30(x: bv64): bv64 { x ^ (x >> 30) }
  function Shifted27(x: bv64): bv64 { x ^ (x >> 27) }
  function Shifted31(x: bv64): bv64 { x ^ (x >> 31) }

  /** Each stage of the mixing can be undone, so only zero is mixed to zero. */
  lemma MixedZero(z: bv64)
    ensures Mixed(z) == 0 <==> z == 0
  {
    var x := Shifted30(z) * 0xBF58_476D_1CE4_E5B9;
    var y := Shifted27(x) * 0x94D0_49BB_1331_11EB;
    Shifted31Zero(y);
    SecondFactor(Shifted27(x));
    Shifted27Zero(x);
    FirstFactor(Shifted30(z));
    Shifted30Zero(z);
  }

  /** Of two successive counters at most one is mixed to zero. */
  lemma OneSurvives(z: bv64)
    ensures Mixed(z) != 0 || Mixed(z + INCREMENT) != 0
  {
    MixedZero(z);
    MixedZero(z + INCREMENT);
  }

  lemma Shifted30Zero(x: bv64)
    ensures Shifted30(x) == 0 <==> x == 0
  {
    assert var y := x ^ (x >> 30); y ^ (y >> 30) ^ (y >> 60) == x;
  }

  lemma Shifted27Zero(x: bv64)
    ensures Shifted27(x) == 0 <==> x == 0
  {
    assert var y := x ^ (x >> 27); y ^ (y >> 27) ^ (y >> 54) == x;
  }

  lemma Shifted31Zero(x: bv64)
    ensures Shifted31(x) == 0 <==> x == 0
  {
    assert var y := x ^ (x >> 31); y ^ (y >> 31) ^ (y >> 62) == x;
  }

  lemma FirstFactor(x: bv64)
    ensures x * 0xBF58_476D_1CE4_E5B9 == 0 <==> x == 0
  {
    assert x * 0xBF58_476D_1CE4_E5B9 * 0x96DE_1B17_3F11_9089 == x;
  }

  lemma SecondFactor(x: bv64)
    ensures x * 0x94D0_49BB_1331_11EB == 0 <==> x == 0
  {
    assert x * 0x94D0_49BB_1331_11EB * 0x3196_42B2_D24D_8EC3 == x;
  }

  /** The four words of xoshiro256++. */
  datatype Words = Words(s0: bv64, s1: bv64, s2: bv64, s3: bv64)

  const DEAD := Words(0, 0, 0, 0)

  function Advanced(s: Words): Words {
    Words(s.s0 ^ (s.s3 ^ s.s1), s.s1 ^ (s.s2 ^ s.s0), (s.s2 ^ s.s0) ^ (s.s1 << 17), (s.s3 ^ s.s1).RotateLeft(45))
  }

  function Scrambled(s: Words): bv64 { (s.s0 + s.s3).RotateLeft(23) + s.s0 }

  function Output(s: Words): nat { Scrambled(s) as nat }

  function Seeded(seed: bv64): Words {
    var z := seed + INCREMENT;
    Words(Mixed(z), Mixed(z + INCREMENT), Mixed(z + INCREMENT + INCREMENT), Mixed(z + INCREMENT + INCREMENT + INCREMENT))
  }

  /** No seed, zero included, gives the state there is no way out of. */
  lemma SeedingIsAlive(seed: bv64)
    ensures Seeded(seed) != DEAD
  {
    OneSurvives(seed + INCREMENT);
  }

  lemma OnlyZeroGivesZero(a: bv64, b: bv64, c: bv64, d: bv64)
    ensures (a ^ (d ^ b)) == 0 && (b ^ (c ^ a)) == 0 && ((c ^ a) ^ (b << 17)) == 0 && (d ^ b).RotateLeft(45) == 0 ==>
              a == 0 && b == 0 && c == 0 && d == 0
  {
  }

  /** And no step leads into it. */
  lemma StepStaysAlive(s: Words)
    requires s != DEAD
    ensures Advanced(s) != DEAD
  {
    OnlyZeroGivesZero(s.s0, s.s1, s.s2, s.s3);
  }

  /** The state after a number of draws. */
  function After(seed: bv64, draws: nat): Words {
    if draws == 0 then Seeded(seed) else Advanced(After(seed, draws - 1))
  }

  lemma {:induction false} NeverDead(seed: bv64, draws: nat)
    ensures After(seed, draws) != DEAD
  {
    if draws == 0 {
      SeedingIsAlive(seed);
    } else {
      NeverDead(seed, draws - 1);
      StepStaysAlive(After(seed, draws - 1));
    }
  }

  // ---- known answers -----------------------------------------------------------------

  lemma SeededWith0()
    ensures Seeded(0) == Words(0xE220_A839_7B1D_CDAF, 0x6E78_9E6A_A1B9_65F4, 0x06C4_5D18_8009_454F, 0xF88B_B8A8_724C_81EC)
  {
  }

  /** The first four outputs for seed 0, as an independent implementation gives them. */
  lemma FirstOutputs0()
    ensures Scrambled(After(0, 0)) == 0x5317_5D61_490B_23DF && Scrambled(After(0, 1)) == 0x61DA_6F3D_C380_D507
    ensures Scrambled(After(0, 2)) == 0x5C0F_DF91_EC9A_7BFC && Scrambled(After(0, 3)) == 0x02EE_BF8C_3BBE_5E1A
  {
    SeededWith0();
    var s0 := Words(0xE220_A839_7B1D_CDAF, 0x6E78_9E6A_A1B9_65F4, 0x06C4_5D18_8009_454F, 0xF88B_B8A8_724C_81EC);
    assert Scrambled(s0) == 0x5317_5D61_490B_23DF;
    assert After(0, 0) == s0;
    var s1 := Words(0x74D3_8EFB_A8E8_29B7, 0x8A9C_6B4B_5AAD_ED14, 0xD831_B653_30FC_88E0, 0xBC83_12DE_64D8_5A7E);
    assert Advanced(s0) == s1;
    assert Scrambled(s1) == 0x61DA_6F3D_C380_D507;
    assert After(0, 1) == s1;
    var s2 := Words(0x42CC_F76E_969D_9EDD, 0x267E_53E3_C2B9_4C43, 0x7A74_8DF3_423C_A157, 0xB6ED_46C3_EF32_A7CE);
    assert Advanced(s1) == s2;
    assert Scrambled(s2) == 0x5C0F_DF91_EC9A_7BFC;
    assert After(0, 2) == s2;
    var s3 := Words(0xD25F_E24E_BB16_7550, 0x1EC6_297E_1618_73C9, 0x9F7F_FFEF_4C27_3F8A, 0x7D71_B212_62A4_05B1);
    assert Advanced(s2) == s3;
    assert Scrambled(s3) == 0x02EE_BF8C_3BBE_5E1A;
    assert After(0, 3) == s3;
  }

  lemma SeededWith42()
    ensures Seeded(42) == Words(0xBDD7_3226_2FEB_6E95, 0x28EF_E333_B266_F103, 0x4752_6757_130F_9F52, 0x581C_E1FF_0E4A_E394)
  {
  }

  /** The first four outputs for seed 42, as an independent implementation gives them. */
  lemma FirstOutputs42()
    ensures Scrambled(After(42, 0)) == 0xD076_4D4F_4476_689F && Scrambled(After(42, 1)) == 0x519E_4174_576F_3791
    ensures Scrambled(After(42, 2)) == 0xFBE0_7CFB_0C24_ED8C && Scrambled(After(42, 3)) == 0xB37D_9F60_0CD8_35B8
  {
    SeededWith42();
    var s0 := Words(0xBDD7_3226_2FEB_6E95, 0x28EF_E333_B266_F103, 0x4752_6757_130F_9F52, 0x581C_E1FF_0E4A_E394);
    assert Scrambled(s0) == 0xD076_4D4F_4476_689F;
    assert After(42, 0) == s0;
    var s1 := Words(0xCD24_30EA_93C7_7C02, 0xD26A_B642_8E82_00C4, 0x3CE2_31BC_DEE2_F1C7, 0x8252_EE1E_6059_9785);
    assert Advanced(s0) == s1;
    assert Scrambled(s1) == 0x519E_4174_576F_3791;
    assert After(42, 1) == s1;
    var s2 := Words(0x9D1C_68B6_7D1C_EB43, 0x23AC_B714_C3A7_8D01, 0x9D43_1C52_4CAD_8DC5, 0x72E8_2A07_0B0B_9DDB);
    assert Advanced(s1) == s2;
    assert Scrambled(s2) == 0xFBE0_7CFB_0C24_ED8C;
    assert After(42, 2) == s2;
    var s3 := Words(0xCC58_F5A5_B5B0_FB99, 0x23F3_C3F0_F216_EB87, 0x6E76_F3AB_2BB3_6686, 0x821B_4A28_93A2_7915);
    assert Advanced(s2) == s3;
    assert Scrambled(s3) == 0xB37D_9F60_0CD8_35B8;
    assert After(42, 3) == s3;
  }

  lemma WordBound(x: bv64)
    ensures x as nat < WORDS
  {
  }

  lemma OutputBound(s: Words)
    ensures Output(s) < WORDS
  {
    WordBound((s.s0 + s.s3).RotateLeft(23) + s.s0);
  }

  /** Words taken since `before`, of which all but the last `pending` are rejected. */
  ghost predicate Rejecting(before: seq<nat>, after: seq<nat>, pending: nat, bound: nat)
    requires 0 < bound <= WORDS
  {
    before <= after && forall k :: |before| <= k < |after| - pending ==> !Accepted(after[k], bound)
  }

  /** How a draw below `bound` used the words taken since `before`: rejected ones, then the one that gave
      the result. A bound of one takes no word. */
  ghost predicate Drew(before: seq<nat>, after: seq<nat>, bound: nat, result: nat)
    requires 0 < bound <= WORDS
  {
    if bound == 1 then result == 0 && after == before
    else
      && |before| < |after| && Rejecting(before, after, 1, bound)
      && Accepted(after[|after| - 1], bound)
      && result == High(after[|after| - 1], bound)
  }

  lemma OneMoreRejected(before: seq<nat>, after: seq<nat>, word: nat, bound: nat)
    requires 0 < bound <= WORDS && Rejecting(before, after, 0, bound)
    ensures Rejecting(before, after + [word], 1, bound)
    ensures !Accepted(word, bound) ==> Rejecting(before, after + [word], 0, bound)
  {
  }

  class Prng {
    var state: Words
    var draws: nat
    /** Every word drawn so far. */
    ghost var drawn: seq<nat>

    ghost predicate Valid()
      reads this
    {
      draws == |drawn| && forall k :: 0 <= k < |drawn| ==> drawn[k] < WORDS
    }

    constructor (seed: bv64)
      ensures Valid() && state == Seeded(seed) && drawn == []
    {
      state := Seeded(seed);
      draws, drawn := 0, [];
    }

    method Next() returns (word: nat)
      requires Valid()
      modifies this
      ensures Valid() && word < WORDS && drawn == old(drawn) + [word]
      ensures word == Output(old(state)) && state == Advanced(old(state))
    {
      OutputBound(state);
      word := Output(state);
      state := Advanced(state);
      draws := draws + 1;
      drawn := drawn + [word];
    }

    /** `budget` bounds the words tried; the answer is absent when all of them were rejected. */
    method Below(bound: nat, budget: nat) returns (r: Option<nat>)
      requires Valid() && 0 < bound < WORDS
      modifies this
      ensures Valid()
      ensures r.Some? ==> r.value < bound && Drew(old(drawn), drawn, bound, r.value)
      ensures r.None? ==> Rejecting(old(drawn), drawn, 0, bound) && |drawn| == |old(drawn)| + budget
    {
      if bound == 1 { return Some(0); }
      if budget == 0 { return None; }
      ghost var before := drawn;
      OneMoreRejected(before, drawn, 0, bound);
      var word := Next();
      var high, low := High(word, bound), Low(word, bound);
      if low < bound {
        var threshold := Threshold(bound);
        var left: nat := budget - 1;
        while low < threshold
          invariant Valid() && word < WORDS
          invariant |drawn| + left == |before| + budget && |drawn| > |before| && word == drawn[|drawn| - 1]
          invariant high == High(word, bound) && low == Low(word, bound)
          invariant Rejecting(before, drawn, 1, bound)
          decreases left
        {
          RejectedLow(word, bound);
          if left == 0 { return None; }
          left := left - 1;
          word := Next();
          high, low := High(word, bound), Low(word, bound);
        }
      }
      ResultBelowBound(word, bound);
      return Some(high);
    }

    /** Both ends included. The full range takes a word as it is. */
    method Between(low: nat, high: nat, budget: nat) returns (r: Option<nat>)
      requires Valid() && low <= high < WORDS
      modifies this
      ensures Valid()
      ensures r.Some? ==> low <= r.value <= high
      ensures r.Some? ==>
                if high - low + 1 == WORDS then drawn == old(drawn) + [r.value]
                else Drew(old(drawn), drawn, high - low + 1, r.value - low)
    {
      if low == 0 && high == WORDS - 1 {
        var word := Next();
        return Some(word);
      }
      var offset := Below(high - low + 1, budget);
      if offset == None { return None; }
      return Some(low + offset.value);
    }

    /** True with probability numerator / denominator; never and always take no word. */
    method Chance(numerator: nat, denominator: nat, budget: nat) returns (r: Option<bool>)
      requires Valid() && numerator <= denominator && 0 < denominator < WORDS
      modifies this
      ensures Valid()
      ensures numerator == 0 ==> r == Some(false) && drawn == old(drawn)
      ensures numerator == denominator ==> r == Some(true) && drawn == old(drawn)
      ensures 0 < numerator < denominator && r.Some? ==>
                |drawn| > |old(drawn)| &&
                (r.value <==> drawn[|drawn| - 1] in WordsUnder(denominator, numerator))
    {
      if numerator == 0 { return Some(false); }
      if numerator == denominator { return Some(true); }
      var draw := Below(denominator, budget);
      if draw == None { return None; }
      return Some(draw.value < numerator);
    }

    /** In place; `picks` are the draws made, which decide the order completely. */
    method Shuffle<T>(a: array<T>, budget: nat) returns (done: bool, ghost picks: seq<nat>)
      requires Valid() && a.Length < WORDS
      modifies this, a
      ensures Valid()
      ensures a.Length < 2 ==> done && drawn == old(drawn) && a[..] == old(a[..])
      ensures a.Length >= 2 ==> ValidDraws(a.Length, picks) && a[..] == Shuffled(old(a[..]), picks, |picks|)
      ensures a.Length >= 2 && done ==> |picks| == a.Length - 1
    {
      picks := [];
      if a.Length < 2 { return true, picks; }
      var i := a.Length - 1;
      while i > 0
        invariant Valid() && 0 <= i < a.Length
        invariant |picks| == a.Length - 1 - i && ValidDraws(a.Length, picks)
        invariant a[..] == Shuffled(old(a[..]), picks, |picks|)
      {
        var j := Below(i + 1, budget);
        if j == None { return false, picks; }
        Exchange(a, i, j.value);
        ghost var more := picks + [j.value];
        LaterDrawsDoNotMatter(old(a[..]), picks, more, |picks|);
        picks := more;
        i := i - 1;
      }
      return true, picks;
    }

    static method Exchange<T>(a: array<T>, i: nat, j: nat)
      requires i < a.Length && j < a.Length
      modifies a
      ensures a[..] == Swapped(old(a[..]), i, j)
    {
      if i != j {
        a[i], a[j] := a[j], a[i];
      }
    }
  }
}
