/** The request handler: echo, and the deterministic work request with its bounded
    hash loop over 64-bit words. */
module Handling {
  import opened Codec
  import opened Streams

  const ITERATION_BYTES := 4
  const MAX_WORK_ITERATIONS := 1_000_000
  const MAX_WORK_UNITS := 64 * 1024 * 1024
  const HASH_OFFSET: bv64 := 1469598103934665603

  // ------------------------------------------------------ the hash of a request

  /** A word put together from eight binary digits, the most significant first. */
  function Assembled(p: bool, q: bool, r: bool, s: bool, t: bool, u: bool, v: bool, w: bool): bv64 {
    (if p then 0x80 else 0) | (if q then 0x40 else 0) | (if r then 0x20 else 0) | (if s then 0x10 else 0)
    | (if t then 0x08 else 0) | (if u then 0x04 else 0) | (if v then 0x02 else 0) | (if w then 0x01 else 0)
  }

  /** A byte, widened to a word. */
  function Word(b: Byte): bv64 {
    Assembled(b / 128 % 2 == 1, b / 64 % 2 == 1, b / 32 % 2 == 1, b / 16 % 2 == 1,
              b / 8 % 2 == 1, b / 4 % 2 == 1, b / 2 % 2 == 1, b % 2 == 1)
  }

  /** The number of a round, as a word. */
  function RoundWord(round: nat): bv64
    requires round <= MAX_WORK_ITERATIONS
  {
    round as bv64
  }

  /** The low byte of a word. */
  function Low(x: bv64): Byte {
    ((x & 0xFF) as bv8) as int
  }

  /** Multiplication by the prime, modulo 2^64. */
  function Times(x: bv64): bv64 {
    x * 1099511628211
  }

  /** Exclusive or with one word, then multiplication. */
  function Mix(hash: bv64, word: bv64): bv64 {
    Times(hash ^ word)
  }

  function Absorb(hash: bv64, seed: seq<Byte>): bv64 {
    if seed == [] then hash else Mix(Absorb(hash, seed[..|seed| - 1]), Word(seed[|seed| - 1]))
  }

  function Fold(hash: bv64): bv64 {
    hash ^ (hash >> 32)
  }

  function Round(hash: bv64, round: nat, seed: seq<Byte>): bv64
    requires round <= MAX_WORK_ITERATIONS
  {
    Fold(Absorb(Mix(hash, RoundWord(round)), seed))
  }

  function Hash(rounds: nat, seed: seq<Byte>): bv64
    requires rounds <= MAX_WORK_ITERATIONS
  {
    if rounds == 0 then HASH_OFFSET else Round(Hash(rounds - 1, seed), rounds - 1, seed)
  }

  /** The bytes of a word, most significant first. */
  function Digest(hash: bv64): seq<Byte> {
    [Low(hash >> 56), Low(hash >> 48), Low(hash >> 40), Low(hash >> 32),
     Low(hash >> 24), Low(hash >> 16), Low(hash >> 8), Low(hash)]
  }

  lemma MixIs(hash: bv64, word: bv64)
    ensures Mix(hash, word) == (hash ^ word) * 1099511628211
  {}

  lemma FoldIs(hash: bv64)
    ensures Fold(hash) == hash ^ (hash >> 32)
  {}

  lemma AbsorbNext(hash: bv64, seed: seq<Byte>, b: Byte)
    ensures Absorb(hash, seed + [b]) == Mix(Absorb(hash, seed), Word(b))
  {
    hide Mix, Word;
    assert (seed + [b])[..|seed|] == seed;
  }

  lemma HashNext(rounds: nat, seed: seq<Byte>)
    requires rounds < MAX_WORK_ITERATIONS
    ensures Hash(rounds + 1, seed) == Fold(Absorb(Mix(Hash(rounds, seed), RoundWord(rounds)), seed))
  {
    hide Mix, Fold, Absorb, RoundWord;
  }

  /** The plain operations on 64-bit words that a round is made of: the words that are mixed
      in are the number of the round and a byte, widened; the prime; and the shift. */
  lemma WordsAre(round: nat, b: Byte, x: bv64)
    requires round <= MAX_WORK_ITERATIONS
    ensures RoundWord(round) == round as bv64
    ensures Word(b) & 0xFF == Word(b) && (b % 2 == 1 <==> Word(b) & 1 != 0) && (b / 2 % 2 == 1 <==> Word(b) & 2 != 0)
    ensures (b / 4 % 2 == 1 <==> Word(b) & 4 != 0) && (b / 8 % 2 == 1 <==> Word(b) & 8 != 0)
    ensures (b / 16 % 2 == 1 <==> Word(b) & 16 != 0) && (b / 32 % 2 == 1 <==> Word(b) & 32 != 0)
    ensures (b / 64 % 2 == 1 <==> Word(b) & 64 != 0) && (b / 128 % 2 == 1 <==> Word(b) & 128 != 0)
    ensures Times(x) == x * 1099511628211 && Fold(x) == x ^ (x >> 32)
  {
    WordBits(b);
    hide Word;
  }

  lemma Disassembled(p: bool, q: bool, r: bool, s: bool, t: bool, u: bool, v: bool, w: bool)
    ensures var x := Assembled(p, q, r, s, t, u, v, w);
            && x & 0xFF == x
            && (x & 128 != 0 <==> p) && (x & 64 != 0 <==> q) && (x & 32 != 0 <==> r) && (x & 16 != 0 <==> s)
            && (x & 8 != 0 <==> t) && (x & 4 != 0 <==> u) && (x & 2 != 0 <==> v) && (x & 1 != 0 <==> w)
  {}

  lemma WordBits(b: Byte)
    ensures Word(b) & 0xFF == Word(b) && (b % 2 == 1 <==> Word(b) & 1 != 0) && (b / 2 % 2 == 1 <==> Word(b) & 2 != 0)
    ensures (b / 4 % 2 == 1 <==> Word(b) & 4 != 0) && (b / 8 % 2 == 1 <==> Word(b) & 8 != 0)
    ensures (b / 16 % 2 == 1 <==> Word(b) & 16 != 0) && (b / 32 % 2 == 1 <==> Word(b) & 32 != 0)
    ensures (b / 64 % 2 == 1 <==> Word(b) & 64 != 0) && (b / 128 % 2 == 1 <==> Word(b) & 128 != 0)
  {
    hide Assembled;
    Disassembled(b / 128 % 2 == 1, b / 64 % 2 == 1, b / 32 % 2 == 1, b / 16 % 2 == 1,
                 b / 8 % 2 == 1, b / 4 % 2 == 1, b / 2 % 2 == 1, b % 2 == 1);
  }

  /** What a round does to the hash: it mixes in its own number, then the seed, and folds. The
      first one starts from the offset. */
  lemma {:induction false} RoundLaw(rounds: nat, seed: seq<Byte>)
    requires rounds < MAX_WORK_ITERATIONS
    ensures Hash(0, seed) == 1469598103934665603
    ensures Hash(rounds + 1, seed) == Fold(Absorb(Times(Hash(rounds, seed) ^ RoundWord(rounds)), seed))
  {
    hide Times, Fold, Hash, Absorb, RoundWord;
    NoRounds(seed);
    HashNext(rounds, seed);
  }

  /** What each byte of the seed does to it. */
  lemma {:induction false} SeedLaw(hash: bv64, seed: seq<Byte>, b: Byte)
    ensures Absorb(hash, []) == hash
    ensures Absorb(hash, seed + [b]) == Times(Absorb(hash, seed) ^ Word(b))
  {
    hide Times, Absorb, Word;
    NothingAbsorbed(hash);
    AbsorbNext(hash, seed, b);
  }

  /** Multiplication by the inverse of the prime, modulo 2^64. */
  function Untimes(x: bv64): bv64 {
    x * 14886173955864302971
  }

  function Unmix(hash: bv64, word: bv64): bv64 {
    Untimes(hash) ^ word
  }

  function Unabsorb(hash: bv64, seed: seq<Byte>): bv64
    decreases |seed|
  {
    if seed == [] then hash else Unabsorb(Unmix(hash, Word(seed[|seed| - 1])), seed[..|seed| - 1])
  }

  /** The inverse of a round. */
  function Unround(hash: bv64, round: nat, seed: seq<Byte>): bv64
    requires round <= MAX_WORK_ITERATIONS
  {
    Unmix(Unabsorb(Fold(hash), seed), RoundWord(round))
  }

  lemma UntimesProduct(x: bv64)
    ensures Untimes(x * 1099511628211) == x
  {}

  lemma TimesProduct(x: bv64)
    ensures Times(x * 14886173955864302971) == x
  {}

  /** The two multiplications undo each other. */
  lemma Inverse(x: bv64)
    ensures Untimes(Times(x)) == x && Times(Untimes(x)) == x
  {
    UntimesTimes(x);
    TimesUntimes(x);
  }

  lemma UntimesTimes(x: bv64)
    ensures Untimes(Times(x)) == x
  {
    hide Untimes;
    UntimesProduct(x);
  }

  lemma TimesUntimes(x: bv64)
    ensures Times(Untimes(x)) == x
  {
    hide Times;
    TimesProduct(x);
  }

  lemma XorCancels(x: bv64, y: bv64)
    ensures (x ^ y) ^ y == x && x ^ (x ^ y) == y
  {}

  lemma MixBijective(hash: bv64, word: bv64)
    ensures Unmix(Mix(hash, word), word) == hash
    ensures Mix(Unmix(hash, word), word) == hash
  {
    hide Times, Untimes;
    Inverse(hash ^ word);
    XorCancels(hash, word);
    Inverse(hash);
    XorCancels(Untimes(hash), word);
  }

  lemma {:induction false} UnabsorbAbsorb(hash: bv64, seed: seq<Byte>)
    ensures Unabsorb(Absorb(hash, seed), seed) == hash
  {
    if seed != [] {
      hide Mix, Unmix, Word;
      var init, last := seed[..|seed| - 1], Word(seed[|seed| - 1]);
      var inner := Absorb(hash, init);
      MixBijective(inner, last);
      UnabsorbAbsorb(hash, init);
      assert Absorb(hash, seed) == Mix(inner, last);
    }
  }

  lemma {:induction false} AbsorbUnabsorb(hash: bv64, seed: seq<Byte>)
    ensures Absorb(Unabsorb(hash, seed), seed) == hash
    decreases |seed|
  {
    if seed != [] {
      hide Mix, Unmix, Word;
      var init, last := seed[..|seed| - 1], Word(seed[|seed| - 1]);
      var inner := Unmix(hash, last);
      MixBijective(hash, last);
      AbsorbUnabsorb(inner, init);
      assert Unabsorb(hash, seed) == Unabsorb(inner, init);
    }
  }

  /** Folding the high half into the low half undoes itself. */
  lemma FoldInvolutive(hash: bv64)
    ensures Fold(Fold(hash)) == hash
  {
    hide Fold;
    FoldIs(hash);
    FoldedTwice(hash);
  }

  lemma FoldedTwice(hash: bv64)
    ensures Fold(hash ^ (hash >> 32)) == hash
  {}

  /** Every round is a bijection on 64-bit words, whatever the seed and the round. */
  lemma RoundBijective(hash: bv64, round: nat, seed: seq<Byte>)
    requires round <= MAX_WORK_ITERATIONS
    ensures Unround(Round(hash, round, seed), round, seed) == hash
    ensures Round(Unround(hash, round, seed), round, seed) == hash
  {
    hide Mix, Unmix, Absorb, Unabsorb, Fold, RoundWord;
    var word := RoundWord(round);
    FoldInvolutive(Absorb(Mix(hash, word), seed));
    UnabsorbAbsorb(Mix(hash, word), seed);
    MixBijective(hash, word);
    FoldInvolutive(hash);
    AbsorbUnabsorb(Fold(hash), seed);
    MixBijective(Unabsorb(Fold(hash), seed), word);
  }

  lemma {:induction false} AbsorbAppend(hash: bv64, a: seq<Byte>, b: seq<Byte>)
    ensures Absorb(hash, a + b) == Absorb(Absorb(hash, a), b)
  {
    if b == [] {
      assert a + b == a;
    } else {
      hide Mix, Word;
      AbsorbAppend(hash, a, b[..|b| - 1]);
      assert (a + b)[..|a + b| - 1] == a + b[..|b| - 1];
    }
  }

  lemma MixSeparates(hash: bv64, x: bv64, y: bv64)
    requires Mix(hash, x) == Mix(hash, y)
    ensures x == y
  {
    hide Times, Untimes;
    Inverse(hash ^ x);
    Inverse(hash ^ y);
    XorCancels(hash, x);
    XorCancels(hash, y);
  }

  lemma Halves(x: nat, y: nat)
    requires x / 2 == y / 2 && x % 2 == y % 2
    ensures x == y
  {}

  lemma Halving(x: Byte)
    ensures x / 128 / 2 == 0 && x / 64 / 2 == x / 128 && x / 32 / 2 == x / 64 && x / 16 / 2 == x / 32
    ensures x / 8 / 2 == x / 16 && x / 4 / 2 == x / 8 && x / 2 / 2 == x / 4
  {}

  lemma SameDigits(x: Byte, y: Byte)
    requires x % 2 == y % 2 && x / 2 % 2 == y / 2 % 2 && x / 4 % 2 == y / 4 % 2 && x / 8 % 2 == y / 8 % 2
    requires x / 16 % 2 == y / 16 % 2 && x / 32 % 2 == y / 32 % 2 && x / 64 % 2 == y / 64 % 2
    requires x / 128 % 2 == y / 128 % 2
    ensures x == y
  {
    Halving(x);
    Halving(y);
    Halves(x / 128, y / 128);
    Halves(x / 64, y / 64);
    Halves(x / 32, y / 32);
    Halves(x / 16, y / 16);
    Halves(x / 8, y / 8);
    Halves(x / 4, y / 4);
    Halves(x / 2, y / 2);
    Halves(x, y);
  }

  lemma WordSeparates(x: Byte, y: Byte)
    requires Word(x) == Word(y)
    ensures x == y
  {
    hide Word;
    WordBits(x);
    WordBits(y);
    SameDigits(x, y);
  }

  /** With one round the hash tells apart seeds of equal length that differ in one byte. */
  lemma HashSeparates(before: seq<Byte>, x: Byte, y: Byte, after: seq<Byte>)
    requires Hash(1, before + [x] + after) == Hash(1, before + [y] + after)
    ensures x == y
  {
    hide Mix, Fold, Word;
    var start := Mix(HASH_OFFSET, 0);
    var hash := Absorb(start, before);
    OneRound(before + [x] + after);
    OneRound(before + [y] + after);
    AbsorbAppend(start, before + [x], after);
    AbsorbAppend(start, before + [y], after);
    assert (before + [x])[..|before|] == before && (before + [y])[..|before|] == before;
    FoldInvolutive(Absorb(Mix(hash, Word(x)), after));
    FoldInvolutive(Absorb(Mix(hash, Word(y)), after));
    UnabsorbAbsorb(Mix(hash, Word(x)), after);
    UnabsorbAbsorb(Mix(hash, Word(y)), after);
    MixSeparates(hash, Word(x), Word(y));
    WordSeparates(x, y);
  }

  lemma OneRound(seed: seq<Byte>)
    ensures Hash(1, seed) == Fold(Absorb(Mix(HASH_OFFSET, 0), seed))
  {
    hide Mix, Fold, Absorb;
    assert Hash(0, seed) == HASH_OFFSET;
    assert RoundWord(0) == 0;
  }

  lemma SameByte(x: bv8, y: bv8)
    requires x as int == y as int
    ensures x == y
  {}

  lemma LowSeparates(x: bv64, y: bv64)
    requires Low(x) == Low(y)
    ensures x & 0xFF == y & 0xFF
  {
    SameByte((x & 0xFF) as bv8, (y & 0xFF) as bv8);
  }

  lemma SameBytes(x: bv64, y: bv64)
    requires (x >> 56) & 0xFF == (y >> 56) & 0xFF && (x >> 48) & 0xFF == (y >> 48) & 0xFF
    requires (x >> 40) & 0xFF == (y >> 40) & 0xFF && (x >> 32) & 0xFF == (y >> 32) & 0xFF
    requires (x >> 24) & 0xFF == (y >> 24) & 0xFF && (x >> 16) & 0xFF == (y >> 16) & 0xFF
    requires (x >> 8) & 0xFF == (y >> 8) & 0xFF && x & 0xFF == y & 0xFF
    ensures x == y
  {}

  lemma EachByte(x: bv64, y: bv64)
    requires Digest(x) == Digest(y)
    ensures Low(x >> 56) == Low(y >> 56) && Low(x >> 48) == Low(y >> 48) && Low(x >> 40) == Low(y >> 40)
    ensures Low(x >> 32) == Low(y >> 32) && Low(x >> 24) == Low(y >> 24) && Low(x >> 16) == Low(y >> 16)
    ensures Low(x >> 8) == Low(y >> 8) && Low(x) == Low(y)
  {
    hide Low;
    var d, e := Digest(x), Digest(y);
    assert d[0] == e[0] && d[1] == e[1] && d[2] == e[2] && d[3] == e[3];
    assert d[4] == e[4] && d[5] == e[5] && d[6] == e[6] && d[7] == e[7];
  }

  lemma MaskedBytes(x: bv64, y: bv64)
    requires Digest(x) == Digest(y)
    ensures (x >> 56) & 0xFF == (y >> 56) & 0xFF && (x >> 48) & 0xFF == (y >> 48) & 0xFF
    ensures (x >> 40) & 0xFF == (y >> 40) & 0xFF && (x >> 32) & 0xFF == (y >> 32) & 0xFF
    ensures (x >> 24) & 0xFF == (y >> 24) & 0xFF && (x >> 16) & 0xFF == (y >> 16) & 0xFF
    ensures (x >> 8) & 0xFF == (y >> 8) & 0xFF && x & 0xFF == y & 0xFF
  {
    hide Low, Digest;
    EachByte(x, y);
    LowSeparates(x >> 56, y >> 56);
    LowSeparates(x >> 48, y >> 48);
    LowSeparates(x >> 40, y >> 40);
    LowSeparates(x >> 32, y >> 32);
    LowSeparates(x >> 24, y >> 24);
    LowSeparates(x >> 16, y >> 16);
    LowSeparates(x >> 8, y >> 8);
    LowSeparates(x, y);
  }

  /** Different words have different digests. */
  lemma DigestInjective(x: bv64, y: bv64)
    requires Digest(x) == Digest(y)
    ensures x == y
  {
    hide Digest;
    MaskedBytes(x, y);
    SameBytes(x, y);
  }

  // ------------------------------------------------------------- work requests

  function Iterations(payload: seq<Byte>): nat
    requires |payload| >= ITERATION_BYTES
  {
    FromBigEndian(payload[..ITERATION_BYTES])
  }

  function SeedWorkUnits(seed: seq<Byte>): nat {
    if seed == [] then 1 else |seed|
  }

  /** The handler's own tests, in its order; the division keeps them free of overflow. */
  predicate AcceptsWork(payload: seq<Byte>) {
    && |payload| >= ITERATION_BYTES
    && var iterations := Iterations(payload);
    && iterations <= MAX_WORK_ITERATIONS
    && !(iterations > 0 && SeedWorkUnits(payload[ITERATION_BYTES..]) > MAX_WORK_UNITS / iterations)
  }

  lemma IterationsAre(p: seq<Byte>)
    requires |p| >= 4
    ensures Iterations(p) == 0x100_0000 * (p[0] as int) + 0x1_0000 * (p[1] as int) + 0x100 * (p[2] as int) + p[3]
  {
    var s := p[..4];
    assert s[..3][..2][..1][..0] == [];
    assert FromBigEndian(s[..3][..2][..1]) == p[0];
    var high: int, next: int := p[0], p[1];
    assert FromBigEndian(s[..3][..2]) == 256 * high + next;
    assert FromBigEndian(s[..3]) == 256 * (256 * high + next) + p[2];
  }

  /** The tests accept exactly the payloads with a prefix of four bytes, at most a million
      iterations, and at most 2^26 units of work; an empty seed counts as one byte. */
  lemma {:induction false} AcceptsWorkIff(p: seq<Byte>)
    ensures AcceptsWork(p) <==>
            && |p| >= 4
            && var n := 0x100_0000 * (p[0] as int) + 0x1_0000 * (p[1] as int) + 0x100 * (p[2] as int) + p[3];
            && n <= 1_000_000
            && n * (if |p| == 4 then 1 else |p| - 4) <= 67_108_864
  {
    hide FromBigEndian;
    if |p| >= 4 {
      IterationsAre(p);
      var i, u := Iterations(p), SeedWorkUnits(p[ITERATION_BYTES..]);
      if i > 0 {
        QuotientBound(i, u, MAX_WORK_UNITS);
      }
    }
  }

  lemma QuotientBound(i: nat, u: nat, limit: nat)
    requires i > 0
    ensures u > limit / i <==> i * u > limit
  {
    var q := limit / i;
    assert limit == i * q + limit % i;
    if u > q {
      assert i * u >= i * (q + 1) == i * q + i;
    } else {
      assert i * u <= i * q;
    }
  }

  function WorkResponsePayload(payload: seq<Byte>): Option<seq<Byte>> {
    if !AcceptsWork(payload) then None
    else Some(Digest(Hash(Iterations(payload), payload[ITERATION_BYTES..])))
  }

  /** The nested loops. `multiplications` counts how often the hash is multiplied. */
  method ComputeWorkResponsePayload(payload: seq<Byte>)
    returns (out: Option<seq<Byte>>, multiplications: nat)
    ensures out == WorkResponsePayload(payload)
    ensures out.None? ==> multiplications == 0
    ensures out.Some? ==>
              && |payload| >= 4
              && multiplications == Iterations(payload) * (1 + |payload| - 4) <= Iterations(payload) + 67_108_864
  {
    hide Mix, Fold, Digest, Word, RoundWord, FromBigEndian, Absorb, Hash;
    multiplications := 0;
    if |payload| < ITERATION_BYTES {
      return None, 0;
    }
    var iterations := FromBigEndian(payload[..ITERATION_BYTES]);
    if iterations > MAX_WORK_ITERATIONS {
      return None, 0;
    }
    var seed := payload[ITERATION_BYTES..];
    var seedWorkUnits := if seed == [] then 1 else |seed|;
    if iterations > 0 && seedWorkUnits > MAX_WORK_UNITS / iterations {
      return None, 0;
    }
    var hash := HASH_OFFSET;
    NoRounds(seed);
    for round := 0 to iterations
      invariant hash == Hash(round, seed)
      invariant multiplications == round * (1 + |seed|)
    {
      ghost var before := multiplications;
      hash := Mix(hash, RoundWord(round));
      multiplications := multiplications + 1;
      ghost var start := hash;
      NothingAbsorbed(start);
      for i := 0 to |seed|
        invariant hash == Absorb(start, seed[..i])
        invariant multiplications == before + 1 + i
      {
        assert seed[..i + 1] == seed[..i] + [seed[i]];
        AbsorbNext(start, seed[..i], seed[i]);
        hash := Mix(hash, Word(seed[i]));
        multiplications := multiplications + 1;
      }
      assert seed[..|seed|] == seed;
      hash := Fold(hash);
      HashNext(round, seed);
      Distributes(round, |seed|);
    }
    WorkBound(iterations, |seed|, seedWorkUnits);
    out := Some(Digest(hash));
  }

  lemma NoRounds(seed: seq<Byte>)
    ensures Hash(0, seed) == HASH_OFFSET
  {}

  lemma NothingAbsorbed(hash: bv64)
    ensures Absorb(hash, []) == hash
  {}

  lemma Distributes(n: nat, k: nat)
    ensures (n + 1) * (1 + k) == n * (1 + k) + 1 + k
  {}

  lemma WorkBound(n: nat, k: nat, units: nat)
    requires units == (if k == 0 then 1 else k) && !(n > 0 && units > MAX_WORK_UNITS / n)
    ensures n * (1 + k) <= n + 67_108_864
  {
    if n > 0 {
      QuotientBound(n, units, MAX_WORK_UNITS);
      assert n * k <= n * units;
    }
    assert n * (1 + k) == n + n * k;
  }

  /** With one iteration the digest tells apart any two seeds of equal length that differ
      in one byte. */
  lemma {:induction false} DigestSeparates(before: seq<Byte>, x: Byte, y: Byte, after: seq<Byte>)
    requires x != y
    requires AcceptsWork(EncodeWorkRequestPayload(1, before + [x] + after))
    ensures WorkResponsePayload(EncodeWorkRequestPayload(1, before + [x] + after))
         != WorkResponsePayload(EncodeWorkRequestPayload(1, before + [y] + after))
  {
    hide Hash, Digest;
    var s, t := before + [x] + after, before + [y] + after;
    WorkPayloadRoundTrip(1, s);
    WorkPayloadRoundTrip(1, t);
    if Digest(Hash(1, s)) == Digest(Hash(1, t)) {
      DigestInjective(Hash(1, s), Hash(1, t));
      HashSeparates(before, x, y, after);
    }
  }

  function EncodeWorkRequestPayload(iterations: nat, seed: seq<Byte>): seq<Byte> {
    BigEndian(iterations, 4) + seed
  }

  lemma {:induction false} WorkPayloadRoundTrip(iterations: nat, seed: seq<Byte>)
    requires iterations < 0x1_0000_0000
    ensures var p := EncodeWorkRequestPayload(iterations, seed);
            && |p| >= ITERATION_BYTES
            && Iterations(p) == iterations
            && p[ITERATION_BYTES..] == seed
            && p == [iterations / 0x100_0000, iterations / 0x1_0000 % 0x100, iterations / 0x100 % 0x100,
                     iterations % 0x100] + seed
  {
    hide FromBigEndian;
    var p := EncodeWorkRequestPayload(iterations, seed);
    assert p[..4] == BigEndian(iterations, 4);
    Widths();
    ReadWrite(iterations, 4);
    FourBytes(iterations);
  }

  // -------------------------------------------------------------- a golden digest

  lemma PairRound(hash: bv64, round: nat, a: Byte, b: Byte)
    requires round <= MAX_WORK_ITERATIONS
    ensures Round(hash, round, [a, b]) == Fold(Mix(Mix(Mix(hash, RoundWord(round)), Word(a)), Word(b)))
  {
    hide Mix, Fold, Word, RoundWord;
    var start := Mix(hash, RoundWord(round));
    assert [a, b][..1] == [a] && [a][..0] == [];
    assert Absorb(start, [a]) == Mix(start, Word(a));
  }

  lemma GoldenWords()
    ensures Word(0xAA) == 0xAA && Word(0xBB) == 0xBB
    ensures RoundWord(0) == 0 && RoundWord(1) == 1 && RoundWord(2) == 2
  {}

  lemma GoldenRound1()
    ensures Round(0x1465_0FB0_739D_0383, 0, [0xAA, 0xBB]) == 0xA7E9_0A4F_9E83_C5D9
  {
    hide Mix, Fold, Word, Round, RoundWord;
    PairRound(0x1465_0FB0_739D_0383, 0, 0xAA, 0xBB);
    GoldenWords();
    MixIs(0x1465_0FB0_739D_0383, 0);
    MixIs(0x44BD_2BD4_73CC_F799, 0xAA);
    MixIs(0x9A68_AD00_C548_0BA9, 0xBB);
    FoldIs(0xA7E9_0A4F_396A_CF96);
  }

  lemma GoldenRound2()
    ensures Round(0xA7E9_0A4F_9E83_C5D9, 1, [0xAA, 0xBB]) == 0x9AE9_D574_1D1E_8193
  {
    hide Mix, Fold, Word, Round, RoundWord;
    PairRound(0xA7E9_0A4F_9E83_C5D9, 1, 0xAA, 0xBB);
    GoldenWords();
    MixIs(0xA7E9_0A4F_9E83_C5D9, 1);
    MixIs(0xD4C2_5D4A_59E9_2E08, 0xAA);
    MixIs(0x6F73_2756_C73A_3D46, 0xBB);
    FoldIs(0x9AE9_D574_87F7_54E7);
  }

  lemma GoldenRound3()
    ensures Round(0x9AE9_D574_1D1E_8193, 2, [0xAA, 0xBB]) == 0xA289_7E00_4462_2F90
  {
    hide Mix, Fold, Word, Round, RoundWord;
    PairRound(0x9AE9_D574_1D1E_8193, 2, 0xAA, 0xBB);
    GoldenWords();
    MixIs(0x9AE9_D574_1D1E_8193, 2);
    MixIs(0x59D7_454D_7AD6_2963, 0xAA);
    MixIs(0x7EF4_8BA7_B9E9_008B, 0xBB);
    FoldIs(0xA289_7E00_E6EB_5190);
  }

  /** The digest of three iterations over the seed AA BB. */
  lemma GoldenDigest()
    ensures WorkResponsePayload([0, 0, 0, 3, 0xAA, 0xBB]) == Some([0xA2, 0x89, 0x7E, 0x00, 0x44, 0x62, 0x2F, 0x90])
  {
    hide Round, Digest, AcceptsWork, Iterations;
    var p: seq<Byte> := [0, 0, 0, 3, 0xAA, 0xBB];
    AcceptsWorkIff(p);
    IterationsAre(p);
    assert p[ITERATION_BYTES..] == [0xAA, 0xBB];
    GoldenRound1();
    GoldenRound2();
    GoldenRound3();
    ThreeRounds([0xAA, 0xBB]);
    GoldenBytes();
  }

  lemma ThreeRounds(seed: seq<Byte>)
    ensures Hash(3, seed) == Round(Round(Round(HASH_OFFSET, 0, seed), 1, seed), 2, seed)
  {
    hide Round;
    assert Hash(1, seed) == Round(Hash(0, seed), 0, seed);
    assert Hash(2, seed) == Round(Hash(1, seed), 1, seed);
  }

  lemma GoldenBytes()
    ensures Digest(0xA289_7E00_4462_2F90) == [0xA2, 0x89, 0x7E, 0x00, 0x44, 0x62, 0x2F, 0x90]
  {}

  // --------------------------------------------------------------- the handler

  /** The characters of a text as bytes. */
  function Text(s: string): (b: seq<Byte>)
    ensures |b| == |s|
  {
    seq(|s|, i requires 0 <= i < |s| => s[i] as int % 0x100)
  }

  function ErrorResponse(requestId: U64, text: string): Message {
    Message(ERROR_RESPONSE, requestId, Text(text))
  }

  function HandleRequest(request: Message): Message {
    if request.kind == ECHO_REQUEST then
      Message(ECHO_RESPONSE, request.requestId, request.payload)
    else if request.kind == WORK_REQUEST then
      match WorkResponsePayload(request.payload)
      case Some(payload) => Message(WORK_RESPONSE, request.requestId, payload)
      case None => ErrorResponse(request.requestId, "invalid work request payload")
    else if request.kind in {ECHO_RESPONSE, WORK_RESPONSE, ERROR_RESPONSE} then
      ErrorResponse(request.requestId, "unexpected response message from client")
    else
      ErrorResponse(request.requestId, "unknown request message")
  }

  /** What a worker makes of a request: the handler's answer, or, when the handler
      throws, an error for the same request. `handler` yields None for a throw. */
  function WorkerResponse(handler: Message -> Option<Message>, request: Message): Message {
    match handler(request)
    case Some(response) => response
    case None => ErrorResponse(request.requestId, "worker handler failed")
  }

  /** The message is an error response to the request, with this text. */
  predicate IsError(m: Message, request: Message, text: string) {
    && m.kind == 5 && m.requestId == request.requestId && |m.payload| == |text|
    && (forall i :: 0 <= i < |text| ==> m.payload[i] == text[i] as int)
  }

  lemma Spells(text: string)
    requires forall i :: 0 <= i < |text| ==> text[i] < 128 as char
    ensures forall i :: 0 <= i < |text| ==> Text(text)[i] == text[i] as int
  {}

  lemma ErrorSpells(request: Message, text: string)
    requires forall i :: 0 <= i < |text| ==> text[i] < 128 as char
    ensures IsError(ErrorResponse(request.requestId, text), request, text)
  {
    Spells(text);
  }

  /** Every reply, in plain numbers and texts: type 1 is echoed as type 2, type 3 is answered by
      type 4 with its digest or rejected, types 2, 4 and 5 are unexpected, all others unknown;
      and a handler that throws is answered for by the worker. */
  lemma Replies(request: Message, handler: Message -> Option<Message>)
    ensures var r, p := HandleRequest(request), request.payload;
            && (request.kind == 1 ==> r == Message(2, request.requestId, p))
            && (request.kind == 3 ==>
                  match WorkResponsePayload(p)
                  case Some(digest) => r == Message(4, request.requestId, digest) && |digest| == 8
                  case None => IsError(r, request, "invalid work request payload"))
            && (request.kind in {2, 4, 5} ==> IsError(r, request, "unexpected response message from client"))
            && (request.kind !in {1, 2, 3, 4, 5} ==> IsError(r, request, "unknown request message"))
    ensures match handler(request)
            case Some(response) => WorkerResponse(handler, request) == response
            case None => IsError(WorkerResponse(handler, request), request, "worker handler failed")
  {
    hide Hash, AcceptsWork, Text, IsError;
    ErrorSpells(request, "invalid work request payload");
    ErrorSpells(request, "unexpected response message from client");
    ErrorSpells(request, "unknown request message");
    ErrorSpells(request, "worker handler failed");
  }

  /** Every request that can arrive in a frame is answered under its own request id by a
      message that can be put in a frame: an echo by its own payload, an acceptable work
      request by a digest, all others by an error. So is a request whose handler throws. */
  lemma ResponsesAreEncodable(request: Message, failing: Message -> Option<Message>)
    requires |request.payload| <= MAX_PAYLOAD_SIZE
    requires failing(request).None?
    ensures HandleRequest(request).requestId == request.requestId
    ensures WorkerResponse(failing, request).requestId == request.requestId
    ensures Encodable(HandleRequest(request)) && Encodable(WorkerResponse(failing, request))
    ensures |Frame(HandleRequest(request))| <= HEADER_SIZE + MAX_PAYLOAD_SIZE
    ensures HandleRequest(request).kind == ECHO_RESPONSE <==> request.kind == ECHO_REQUEST
    ensures request.kind == ECHO_REQUEST ==> HandleRequest(request).payload == request.payload
    ensures HandleRequest(request).kind == WORK_RESPONSE <==>
              request.kind == WORK_REQUEST && AcceptsWork(request.payload)
    ensures HandleRequest(request).kind in {ECHO_RESPONSE, WORK_RESPONSE, ERROR_RESPONSE}
  {
    hide Hash, AcceptsWork, Header;
  }

  /** A well-formed work request that states its own iterations and seed is answered by
      the digest exactly when it is within the bounds, and by an error otherwise. */
  lemma {:induction false} WorkRequestAnswer(requestId: U64, iterations: nat, seed: seq<Byte>)
    requires iterations < 0x1_0000_0000
    ensures var request := Message(3, requestId, EncodeWorkRequestPayload(iterations, seed));
            if iterations <= 1_000_000 && iterations * (if |seed| == 0 then 1 else |seed|) <= 67_108_864 then
              HandleRequest(request) == Message(4, requestId, Digest(Hash(iterations, seed)))
            else
              IsError(HandleRequest(request), request, "invalid work request payload")
  {
    hide Hash, Text, Digest, IsError, Iterations;
    var request := Message(3, requestId, EncodeWorkRequestPayload(iterations, seed));
    WorkPayloadRoundTrip(iterations, seed);
    AcceptsWorkIff(request.payload);
    IterationsAre(request.payload);
    Replies(request, m => None);
  }
}
