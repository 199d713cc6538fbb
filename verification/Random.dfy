/**
 * Thirty-two-bit words as their bits, lowest first: what the source's `>>> 0`, `<<`, `^` and `Math.imul` compute
 * with. A word and its signed view are the same word here.
 */
module Words {
  const WIDTH := 32
  const RANGE := 0x1_0000_0000

  type Word = b: seq<bool> | |b| == WIDTH witness seq(WIDTH, i => false)

  const ZERO_WORD: Word := seq(WIDTH, i => false)

  function Xor(a: Word, b: Word): Word {
    seq(WIDTH, i requires 0 <= i < WIDTH => a[i] != b[i])
  }

  function Or(a: Word, b: Word): Word {
    seq(WIDTH, i requires 0 <= i < WIDTH => a[i] || b[i])
  }

  function Shl(a: Word, k: nat): Word {
    seq(WIDTH, i requires 0 <= i < WIDTH => i >= k && a[i - k])
  }

  function Shr(a: Word, k: nat): Word {
    seq(WIDTH, i requires 0 <= i < WIDTH => i + k < WIDTH && a[i + k])
  }

  function Rotl(a: Word, k: nat): Word
    requires 0 < k < WIDTH
  {
    Or(Shl(a, k), Shr(a, WIDTH - k))
  }

  // ---------------------------------------------------------------------------------------------
  // Exclusive or

  lemma XorCancels(a: Word, b: Word)
    ensures Xor(Xor(a, b), b) == a && Xor(b, Xor(b, a)) == a
  {
  }

  lemma XorSwaps(a: Word, b: Word)
    ensures Xor(a, b) == Xor(b, a)
  {
  }

  /** The shared middle term drops out. */
  lemma XorDropsMiddle(a: Word, m: Word, b: Word)
    ensures Xor(Xor(a, m), Xor(m, b)) == Xor(a, b)
  {
  }

  /** A rotation moves every bit and loses none. */
  lemma RotationInverts(a: Word, k: nat)
    requires 0 < k < WIDTH
    ensures Rotl(Rotl(a, k), WIDTH - k) == a
  {
    var r := Rotl(a, k);
    forall i | 0 <= i < WIDTH ensures Rotl(r, WIDTH - k)[i] == a[i] {
      if i + k < WIDTH {
        assert Rotl(r, WIDTH - k)[i] == (Shl(r, WIDTH - k)[i] || r[i + k]);
        assert r[i + k] == (a[i] || Shr(a, WIDTH - k)[i + k]);
      } else {
        assert Rotl(r, WIDTH - k)[i] == (r[i - (WIDTH - k)] || Shr(r, k)[i]);
        assert r[i - (WIDTH - k)] == (Shl(a, k)[i - (WIDTH - k)] || a[i]);
      }
    }
  }

  /** x ^ (x >>> k), the scrambler's shift. */
  function XorShr(a: Word, k: nat): Word {
    Xor(a, Shr(a, k))
  }

  /** x ^ (x << k), which one draw mixes into the state. */
  function XorShl(a: Word, k: nat): Word {
    Xor(a, Shl(a, k))
  }

  lemma XorShrTwice(a: Word, k: nat)
    ensures XorShr(XorShr(a, k), k) == XorShr(a, 2 * k)
  {
  }

  lemma XorShlTwice(a: Word, k: nat)
    ensures XorShl(XorShl(a, k), k) == XorShl(a, 2 * k)
  {
  }

  lemma XorShlSwaps(a: Word, j: nat, k: nat)
    ensures XorShl(XorShl(a, j), k) == XorShl(XorShl(a, k), j)
  {
  }

  lemma ShiftedOut(a: Word, k: nat)
    requires k >= WIDTH
    ensures XorShr(a, k) == a && XorShl(a, k) == a
  {
  }

  /** Shifting back up by doublings undoes any shift of at least an eighth of the word. */
  function UnXorShr(a: Word, k: nat): Word {
    XorShr(XorShr(XorShr(a, k), 2 * k), 4 * k)
  }

  function UnXorShl(a: Word, k: nat): Word {
    XorShl(XorShl(XorShl(a, k), 2 * k), 4 * k)
  }

  lemma XorShrInverts(a: Word, k: nat)
    requires 8 * k >= WIDTH
    ensures UnXorShr(XorShr(a, k), k) == a
  {
    XorShrTwice(a, k);
    XorShrTwice(a, 2 * k);
    XorShrTwice(a, 4 * k);
    ShiftedOut(a, 8 * k);
  }

  lemma UnXorShlUndoes(a: Word, k: nat)
    requires 8 * k >= WIDTH
    ensures UnXorShl(XorShl(a, k), k) == a
  {
    XorShlTwice(a, k);
    XorShlTwice(a, 2 * k);
    XorShlTwice(a, 4 * k);
    ShiftedOut(a, 8 * k);
  }

  lemma XorShlInverts(a: Word, k: nat)
    requires 8 * k >= WIDTH
    ensures UnXorShl(XorShl(a, k), k) == a
    ensures XorShl(UnXorShl(a, k), k) == a
  {
    UnXorShlUndoes(a, k);
    XorShlCommutesUn(a, k);
  }

  lemma XorShlCommutesUn(a: Word, k: nat)
    ensures XorShl(UnXorShl(a, k), k) == UnXorShl(XorShl(a, k), k)
  {
    XorShlSwaps(XorShl(XorShl(a, k), 2 * k), 4 * k, k);
    XorShlSwaps(XorShl(a, k), 2 * k, k);
  }

  // ---------------------------------------------------------------------------------------------
  // Numbers

  function Value(b: seq<bool>): nat {
    if b == [] then 0 else (if b[0] then 1 else 0) + 2 * Value(b[1..])
  }

  function Digits(n: nat, width: nat): (b: seq<bool>)
    ensures |b| == width
  {
    if width == 0 then [] else [n % 2 == 1] + Digits(n / 2, width - 1)
  }

  function Pow2(n: nat): nat {
    if n == 0 then 1 else 2 * Pow2(n - 1)
  }

  lemma {:induction false} ValueBound(b: seq<bool>)
    ensures Value(b) < Pow2(|b|)
  {
    if b != [] {
      ValueBound(b[1..]);
    }
  }

  lemma {:induction false} DigitsOfValue(b: seq<bool>)
    ensures Digits(Value(b), |b|) == b
  {
    if b != [] {
      DigitsOfValue(b[1..]);
      assert Value(b) / 2 == Value(b[1..]);
    }
  }

  lemma {:induction false} ValueOfDigits(n: nat, width: nat)
    requires n < Pow2(width)
    ensures Value(Digits(n, width)) == n
  {
    if width > 0 {
      ValueOfDigits(n / 2, width - 1);
      assert Digits(n, width)[1..] == Digits(n / 2, width - 1);
    }
  }

  /** A number reduced to `width` bits, as `| 0` and `>>> 0` reduce one to 32. */
  function Reduced(n: int, width: nat): (b: seq<bool>)
    ensures |b| == width
  {
    Pow2Positive(width);
    Digits(n % Pow2(width), width)
  }

  lemma {:induction false} Pow2Positive(n: nat)
    ensures Pow2(n) > 0
  {
    if n > 0 {
      Pow2Positive(n - 1);
    }
  }

  lemma {:induction false} ReducedValue(n: int, width: nat)
    ensures Pow2(width) > 0 && Value(Reduced(n, width)) == n % Pow2(width)
  {
    Pow2Positive(width);
    ValueOfDigits(n % Pow2(width), width);
  }

  lemma {:induction false} ReducedBack(b: seq<bool>, n: int)
    requires Pow2(|b|) > 0 ==> n % Pow2(|b|) == Value(b)
    ensures Reduced(n, |b|) == b
  {
    Pow2Positive(|b|);
    DigitsOfValue(b);
  }

  function Imul(a: Word, factor: nat): Word {
    Reduced(Value(a) * factor, WIDTH)
  }

  function Add(a: Word, n: nat): Word {
    Reduced(Value(a) + n, WIDTH)
  }

  lemma {:induction false} Pow2Add(m: nat, n: nat)
    ensures Pow2(m + n) == Pow2(m) * Pow2(n)
  {
    if m > 0 {
      Pow2Add(m - 1, n);
      assert Pow2(m + n) == 2 * (Pow2(m - 1) * Pow2(n));
    }
  }

  lemma Pow2OfWidth()
    ensures Pow2(WIDTH) == RANGE
  {
    assert Pow2(8) == 256;
    Pow2Add(8, 8);
    Pow2Add(16, 16);
  }

  lemma ModShift(v: int, k: int)
    requires 0 <= v < RANGE
    ensures (v + k * RANGE) % RANGE == v
  {
  }

  /** An odd factor has an inverse modulo 2^32, so multiplying by it loses nothing. */
  lemma MulMod(v: nat, factor: nat, inverse: nat)
    requires v < RANGE && factor * inverse % RANGE == 1
    ensures (v * factor % RANGE) * inverse % RANGE == v
  {
    var k, j := v * factor / RANGE, factor * inverse / RANGE;
    assert v * factor == k * RANGE + v * factor % RANGE;
    assert (v * factor % RANGE) * inverse == v * (factor * inverse) - k * inverse * RANGE;
    assert factor * inverse == j * RANGE + 1;
    assert v * (factor * inverse) == v * j * RANGE + v;
    ModShift(v, v * j - k * inverse);
  }

  lemma AddMod(v: nat, n: nat)
    requires v < RANGE && n < RANGE
    ensures ((v + n) % RANGE + (RANGE - n)) % RANGE == v
  {
  }

  lemma {:induction false} WordBounds(a: Word)
    ensures Value(a) < RANGE
  {
    Pow2OfWidth();
    ValueBound(a);
  }

  lemma {:induction false} WordOf(n: int)
    ensures Value(Reduced(n, WIDTH)) == n % RANGE
  {
    Pow2OfWidth();
    ReducedValue(n, WIDTH);
  }

  lemma {:induction false} WordBack(a: Word, n: int)
    requires n % RANGE == Value(a)
    ensures Reduced(n, WIDTH) == a
  {
    Pow2OfWidth();
    ReducedBack(a, n);
  }

  lemma {:induction false} ImulInverts(a: Word, factor: nat, inverse: nat)
    requires factor * inverse % RANGE == 1
    ensures Imul(Imul(a, factor), inverse) == a
  {
    WordBounds(a);
    WordOf(Value(a) * factor);
    MulMod(Value(a), factor, inverse);
    WordBack(a, Value(Imul(a, factor)) * inverse);
  }

  lemma {:induction false} AddInverts(a: Word, n: nat)
    requires n < RANGE
    ensures Add(Add(a, n), RANGE - n) == a
  {
    WordOf(Value(a) + n);
    AddBack(a, Add(a, n), n);
  }

  // ---------------------------------------------------------------------------------------------
  // Rotations as arithmetic

  lemma {:induction false} ValueConcat(a: seq<bool>, b: seq<bool>)
    ensures Value(a + b) == Value(a) + Pow2(|a|) * Value(b)
    decreases |a|
  {
    if a == [] {
      assert a + b == b;
    } else {
      assert (a + b)[1..] == a[1..] + b && (a + b)[0] == a[0];
      ValueConcat(a[1..], b);
      OneBitMore(if a[0] then 1 else 0, Value(a[1..]), Pow2(|a| - 1), Value(b));
    }
  }

  lemma OneBitMore(bit: nat, rest: nat, power: nat, v: nat)
    ensures bit + 2 * (rest + power * v) == (bit + 2 * rest) + (2 * power) * v
  {
  }

  /** The low bits moved up, and behind them the high bits moved down. */
  lemma RotlParts(a: Word, k: nat)
    requires 0 < k < WIDTH
    ensures Rotl(a, k) == a[WIDTH - k..] + a[..WIDTH - k] && a == a[..WIDTH - k] + a[WIDTH - k..]
  {
  }

  /** The rotation the output makes: the lower 25 bits up by seven, and the upper seven down. */
  lemma {:induction false} RotlBySeven(a: Word)
    ensures Value(Rotl(a, 7)) == Value(a) * 128 % RANGE + Value(a) / 0x200_0000
  {
    var low, high := a[..25], a[25..];
    SmallPowers();
    RotlParts(a, 7);
    ValueConcat(low, high);
    ValueConcat(high, low);
    ValueBound(low);
    ValueBound(high);
    Halves(Value(low), Value(high));
  }

  lemma Halves(low: nat, high: nat)
    requires low < 0x200_0000 && high < 128
    ensures (low + 0x200_0000 * high) * 128 % RANGE + (low + 0x200_0000 * high) / 0x200_0000 == high + 128 * low
  {
  }

  lemma SmallPowers()
    ensures Pow2(7) == 128 && Pow2(25) == 0x200_0000
  {
    Pow2Add(7, 7);
    Pow2Add(14, 7);
    Pow2Add(21, 4);
  }

  lemma {:induction false} AddBack(a: Word, sum: Word, n: nat)
    requires n < RANGE && Value(sum) == (Value(a) + n) % RANGE
    ensures Add(sum, RANGE - n) == a
  {
    WordBounds(a);
    AddMod(Value(a), n);
    WordBack(a, Value(sum) + (RANGE - n));
  }
}

/** The seeded generator: xoshiro128** over four words, seeded through splitmix32. */
module Randoms {
  import opened Wrappers
  import opened Words

  const GOLDEN := 0x9e3779b9

  // ---------------------------------------------------------------------------------------------
  // Seeding

  function Splitmix32(seed: Word): Word {
    XorShr(Scrambled(Scrambled(Add(seed, GOLDEN), 16, 0x85ebca6b), 13, 0xc2b2ae35), 16)
  }

  function Scrambled(a: Word, k: nat, factor: nat): Word {
    Imul(XorShr(a, k), factor)
  }

  function Unscrambled(b: Word, k: nat, inverse: nat): Word {
    UnXorShr(Imul(b, inverse), k)
  }

  lemma UnscramblesBack(a: Word, k: nat, factor: nat, inverse: nat)
    requires 8 * k >= WIDTH && factor * inverse % RANGE == 1
    ensures Unscrambled(Scrambled(a, k, factor), k, inverse) == a
  {
    ImulInverts(XorShr(a, k), factor, inverse);
    XorShrInverts(a, k);
  }

  /** Undoes each scrambling step in turn; both multipliers are odd. */
  function Unsplitmix32(out: Word): Word {
    Add(Unscrambled(Unscrambled(UnXorShr(out, 16), 13, 0x7ed1b41d), 16, 0xa5cb9243), RANGE - GOLDEN)
  }

  /** `splitmix32` loses nothing. */
  lemma SplitmixInverts(seed: Word)
    ensures Unsplitmix32(Splitmix32(seed)) == seed
  {
    var a := Add(seed, GOLDEN);
    var b := Scrambled(a, 16, 0x85ebca6b);
    var c := Scrambled(b, 13, 0xc2b2ae35);
    XorShrInverts(c, 16);
    UnscramblesBack(b, 13, 0xc2b2ae35, 0x7ed1b41d);
    UnscramblesBack(a, 16, 0x85ebca6b, 0xa5cb9243);
    AddInverts(seed, GOLDEN);
  }

  datatype State = State(s0: Word, s1: Word, s2: Word, s3: Word)

  const ZERO := State(ZERO_WORD, ZERO_WORD, ZERO_WORD, ZERO_WORD)

  /** Four splitmix outputs a golden step apart. */
  function Seeded(seed: Word): State {
    var second := Add(seed, GOLDEN);
    var third := Add(second, GOLDEN);
    State(Splitmix32(seed), Splitmix32(second), Splitmix32(third), Splitmix32(Add(third, GOLDEN)))
  }

  // ---------------------------------------------------------------------------------------------
  // Drawing

  function Stepped(s: State): State {
    var t := Shl(s.s1, 9);
    var s2 := Xor(s.s2, s.s0);
    var s3 := Xor(s.s3, s.s1);
    State(Xor(s.s0, s3), Xor(s.s1, s2), Xor(s2, t), Rotl(s3, 11))
  }

  /** The state before: the rotation and each mixed-in word taken back, latest first. */
  function Previous(n: State): State {
    var s3 := Rotl(n.s3, 21);
    var s0 := Xor(n.s0, s3);
    var s1 := UnXorShl(Xor(n.s1, n.s2), 9);
    var s2 := Xor(n.s1, s1);
    State(s0, s1, Xor(s2, s0), Xor(s3, s1))
  }

  /** Every state is the only predecessor of its successor. */
  lemma PreviousOfStep(s: State)
    ensures Previous(Stepped(s)) == s
  {
    var t := Shl(s.s1, 9);
    var s2, s3 := Xor(s.s2, s.s0), Xor(s.s3, s.s1);
    RotationInverts(s3, 11);
    XorCancels(s.s0, s3);
    XorDropsMiddle(s.s1, s2, t);
    XorShlInverts(s.s1, 9);
    XorSwaps(s.s1, s2);
    XorCancels(s2, s.s1);
    XorCancels(s.s2, s.s0);
    XorCancels(s.s3, s.s1);
  }

  /** Every state has a predecessor. */
  lemma StepOfPrevious(n: State)
    ensures Stepped(Previous(n)) == n
  {
    var s3 := Rotl(n.s3, 21);
    var s0 := Xor(n.s0, s3);
    var mixed := Xor(n.s1, n.s2);
    var s1 := UnXorShl(mixed, 9);
    var s2 := Xor(n.s1, s1);
    XorCancels(s2, s0);
    XorCancels(s3, s1);
    XorCancels(n.s0, s3);
    XorCancels(n.s1, s1);
    XorSwaps(s1, s2);
    RotationInverts(n.s3, 21);
    XorShlInverts(mixed, 9);
    Remixed(n.s1, n.s2, s1);
  }

  lemma Remixed(a: Word, b: Word, s1: Word)
    requires XorShl(s1, 9) == Xor(a, b)
    ensures Xor(Xor(a, s1), Shl(s1, 9)) == b
  {
    forall i | 0 <= i < WIDTH ensures Xor(Xor(a, s1), Shl(s1, 9))[i] == b[i] {
      assert XorShl(s1, 9)[i] == Xor(a, b)[i];
    }
  }

  function Draws(s: State, n: nat): State {
    if n == 0 then s else Stepped(Draws(s, n - 1))
  }

  lemma StepOfZero()
    ensures Stepped(ZERO) == ZERO
  {
    assert Xor(ZERO_WORD, ZERO_WORD) == ZERO_WORD;
    assert Shl(ZERO_WORD, 9) == ZERO_WORD && Rotl(ZERO_WORD, 11) == ZERO_WORD;
  }

  lemma StepsToZeroIff(s: State)
    ensures Stepped(s) == ZERO <==> s == ZERO
  {
    PreviousOfStep(s);
    PreviousOfStep(ZERO);
    StepOfZero();
  }

  /** The all-zero state is a fixed point nothing else reaches. */
  lemma {:induction false} ZeroIsIsolated(s: State, n: nat)
    ensures Draws(s, n) == ZERO <==> s == ZERO
  {
    if n > 0 {
      ZeroIsIsolated(s, n - 1);
      StepsToZeroIff(Draws(s, n - 1));
    }
  }

  /** A golden step goes on round the ring of words, or past its end and back to the start. */
  lemma {:induction false} GoldenStep(a: Word)
    ensures Value(Add(a, GOLDEN)) == Value(a) + GOLDEN || Value(Add(a, GOLDEN)) == Value(a) + GOLDEN - RANGE
    ensures Value(Add(a, GOLDEN)) < RANGE
  {
    WordBounds(a);
    WordOf(Value(a) + GOLDEN);
    Wraps(Value(a));
  }

  lemma Wraps(v: nat)
    requires v < RANGE
    ensures (v + GOLDEN) % RANGE == if v + GOLDEN < RANGE then v + GOLDEN else v + GOLDEN - RANGE
  {
  }

  /** One, two or three golden steps end somewhere else. */
  lemma {:induction false} GoldenStepsMove(seed: Word, second: Word, third: Word, fourth: Word)
    requires second == Add(seed, GOLDEN) && third == Add(second, GOLDEN) && fourth == Add(third, GOLDEN)
    ensures seed != second && seed != third && seed != fourth
  {
    GoldenStep(seed);
    GoldenStep(second);
    GoldenStep(third);
  }

  /** The mixer tells apart whatever differs. */
  lemma MixesApart(a: Word, b: Word)
    requires a != b
    ensures Splitmix32(a) != Splitmix32(b)
  {
    SplitmixInverts(a);
    SplitmixInverts(b);
  }

  /** The four seeding inputs are distinct, and so are the four words. */
  lemma {:induction false} SeedWordsDistinct(seed: Word)
    ensures var s := Seeded(seed);
            s.s0 != s.s1 && s.s0 != s.s2 && s.s0 != s.s3 && s.s1 != s.s2 && s.s1 != s.s3 && s.s2 != s.s3
  {
    var second := Add(seed, GOLDEN);
    var third := Add(second, GOLDEN);
    var fourth := Add(third, GOLDEN);
    var fifth := Add(fourth, GOLDEN);
    GoldenStepsMove(seed, second, third, fourth);
    GoldenStepsMove(second, third, fourth, fifth);
    GoldenStepsMove(third, fourth, fifth, Add(fifth, GOLDEN));
    MixesApart(seed, second);
    MixesApart(seed, third);
    MixesApart(seed, fourth);
    MixesApart(second, third);
    MixesApart(second, fourth);
    MixesApart(third, fourth);
  }

  /** At most one of the four words is zero. */
  lemma {:induction false} SeedNotZero(seed: Word)
    ensures Seeded(seed) != ZERO
  {
    SeedWordsDistinct(seed);
  }

  /** For every seed and any number of draws the generator is never stuck at zero. */
  lemma {:induction false} NeverStuck(seed: Word, n: nat)
    ensures Draws(Seeded(seed), n) != ZERO
  {
    SeedNotZero(seed);
    ZeroIsIsolated(Seeded(seed), n);
  }

  lemma {:induction false} DrawsInject(s: State, t: State, n: nat)
    requires Draws(s, n) == Draws(t, n)
    ensures s == t
  {
    if n > 0 {
      PreviousOfStep(Draws(s, n - 1));
      PreviousOfStep(Draws(t, n - 1));
      DrawsInject(s, t, n - 1);
    }
  }

  /** Two generators that ever stand in the same state after the same number of draws were seeded alike. */
  lemma {:induction false} SeedsNeverMerge(a: Word, b: Word, n: nat)
    requires Draws(Seeded(a), n) == Draws(Seeded(b), n)
    ensures a == b
  {
    DrawsInject(Seeded(a), Seeded(b), n);
    SplitmixInverts(a);
    SplitmixInverts(b);
  }

  // ---------------------------------------------------------------------------------------------
  // What seeding and drawing compute, in integers and bit by bit

  /** The mixer's steps: a sum, a shift mixed in, a product, and so on, each on the whole word. */
  lemma {:induction false} SplitmixIs(seed: Word) returns (a: Word, b: Word, c: Word, d: Word, e: Word)
    ensures Value(a) == (Value(seed) + 0x9e3779b9) % 0x1_0000_0000
    ensures forall i :: 0 <= i < 32 ==> b[i] == (a[i] != (i < 16 && a[i + 16]))
    ensures Value(c) == Value(b) * 0x85ebca6b % 0x1_0000_0000
    ensures forall i :: 0 <= i < 32 ==> d[i] == (c[i] != (i < 19 && c[i + 13]))
    ensures Value(e) == Value(d) * 0xc2b2ae35 % 0x1_0000_0000
    ensures forall i :: 0 <= i < 32 ==> Splitmix32(seed)[i] == (e[i] != (i < 16 && e[i + 16]))
  {
    a := Add(seed, GOLDEN);
    b := XorShr(a, 16);
    c := Imul(b, 0x85ebca6b);
    d := XorShr(c, 13);
    e := Imul(d, 0xc2b2ae35);
    WordOf(Value(seed) + GOLDEN);
    WordOf(Value(b) * 0x85ebca6b);
    WordOf(Value(d) * 0xc2b2ae35);
  }

  /** The four words are the mixer's, of seeds a constant apart; a word is known by its value. */
  lemma {:induction false} SeededIs(n: int, w0: Word, w1: Word, w2: Word, w3: Word)
    requires Value(w0) == n % 0x1_0000_0000 && Value(w1) == (n + 0x9e3779b9) % 0x1_0000_0000
    requires Value(w2) == (n + 2 * 0x9e3779b9) % 0x1_0000_0000 && Value(w3) == (n + 3 * 0x9e3779b9) % 0x1_0000_0000
    ensures Seeded(Reduced(n, WIDTH)) == State(Splitmix32(w0), Splitmix32(w1), Splitmix32(w2), Splitmix32(w3))
  {
    WordBack(w0, n);
    GoldenOn(w0, n, w1);
    GoldenOn(w1, n + 0x9e3779b9, w2);
    GoldenOn(w2, n + 2 * 0x9e3779b9, w3);
  }

  lemma {:induction false} GoldenOn(a: Word, n: int, next: Word)
    requires Value(a) == n % RANGE && Value(next) == (n + GOLDEN) % RANGE
    ensures Add(a, GOLDEN) == next
  {
    SumOfRest(n);
    WordBack(next, Value(a) + GOLDEN);
  }

  lemma SumOfRest(n: int)
    ensures (n % RANGE + GOLDEN) % RANGE == (n + GOLDEN) % RANGE
  {
  }

  /** One draw, bit by bit. */
  lemma StepBits(s: State, i: nat)
    requires i < 32
    ensures var n := Stepped(s);
            && n.s0[i] == ((s.s0[i] != s.s3[i]) != s.s1[i])
            && n.s1[i] == ((s.s1[i] != s.s2[i]) != s.s0[i])
            && n.s2[i] == ((s.s2[i] != s.s0[i]) != (i >= 9 && s.s1[i - 9]))
            && n.s3[i] == var j := if i >= 11 then i - 11 else i + 21; s.s3[j] != s.s1[j]
  {
    RotlParts(Xor(s.s3, s.s1), 11);
  }

  /** The output, in integers: times five, rotated by seven, times nine. */
  lemma {:induction false} OutputIs(s: State)
    ensures var v := Value(s.s1) * 5 % 0x1_0000_0000;
            var w := v * 128 % 0x1_0000_0000 + v / 0x200_0000;
            Value(Output(s)) == w * 9 % 0x1_0000_0000
  {
    var five := Imul(s.s1, 5);
    WordOf(Value(s.s1) * 5);
    RotlBySeven(five);
    WordOf(Value(Rotl(five, 7)) * 9);
  }

  // ---------------------------------------------------------------------------------------------
  // The generator object

  /** The scrambled output of one state, before it is scaled to a fraction. */
  function Output(s: State): Word {
    Imul(Rotl(Imul(s.s1, 5), 7), 9)
  }

  /** The word a state's second quarter must hold for the given output. */
  function Unoutput(out: Word): Word {
    Imul(Unturned(out), 0xcccccccd)
  }

  function Unturned(out: Word): Word {
    Rotl(Imul(out, 0x38e38e39), 25)
  }

  lemma TurnsBack(a: Word)
    ensures Unturned(Imul(Rotl(a, 7), 9)) == a
  {
    var turned := Rotl(a, 7);
    ImulInverts(turned, 9, 0x38e38e39);
    RotationInverts(a, 7);
    assert Imul(Imul(turned, 9), 0x38e38e39) == turned;
  }

  /** The scrambler loses nothing: each output comes from one `s1` only. */
  lemma OutputInverts(s: State)
    ensures Unoutput(Output(s)) == s.s1
  {
    TurnsBack(Imul(s.s1, 5));
    ImulInverts(s.s1, 5, 0xcccccccd);
  }

  /** What `next` returns from a state. */
  function Fraction(s: State): (r: real)
    ensures 0.0 <= r < 1.0
    ensures var v := Value(s.s1) * 5 % 0x1_0000_0000;
            var w := v * 128 % 0x1_0000_0000 + v / 0x200_0000;
            r * 4294967296.0 == (w * 9 % 0x1_0000_0000) as real
  {
    WordBounds(Output(s));
    OutputIs(s);
    Value(Output(s)) as real / RANGE as real
  }

  /** One draw in plain terms: the fraction in integers, and the next state bit by bit. */
  ghost predicate Drawn(s: State, r: real, n: State) {
    && (var v := Value(s.s1) * 5 % 0x1_0000_0000;
        var w := v * 128 % 0x1_0000_0000 + v / 0x200_0000;
        r * 4294967296.0 == (w * 9 % 0x1_0000_0000) as real)
    && forall i: nat :: i < 32 ==>
                          && n.s0[i] == ((s.s0[i] != s.s3[i]) != s.s1[i])
                          && n.s1[i] == ((s.s1[i] != s.s2[i]) != s.s0[i])
                          && n.s2[i] == ((s.s2[i] != s.s0[i]) != (i >= 9 && s.s1[i - 9]))
                          && n.s3[i] == var j := if i >= 11 then i - 11 else i + 21; s.s3[j] != s.s1[j]
  }

  lemma DrawIs(s: State)
    ensures Drawn(s, Fraction(s), Stepped(s))
  {
    forall i: nat | i < 32 {
      StepBits(s, i);
    }
  }

  /** Where a fraction falls in a list of `n`. */
  function IndexFor(r: real, n: nat): (at: nat)
    requires 0.0 <= r < 1.0 && n > 0
    ensures at < n && at as real <= r * n as real < at as real + 1.0
  {
    ScaledBelow(r, n);
    (r * n as real).Floor
  }

  /** The first `n` fractions drawn from a state. */
  function Stream(s: State, n: nat): seq<real> {
    if n == 0 then [] else Stream(s, n - 1) + [Fraction(Draws(s, n - 1))]
  }

  class SeededRandom {
    var s0: Word
    var s1: Word
    var s2: Word
    var s3: Word

    function View(): State
      reads this
    {
      State(s0, s1, s2, s3)
    }

    constructor (n: int)
      ensures View() == Seeded(Reduced(n, WIDTH)) && View() != ZERO
    {
      var s: Word := Reduced(n, WIDTH);
      SeedNotZero(s);
      s0 := Splitmix32(s);
      s := Add(s, GOLDEN);
      s1 := Splitmix32(s);
      s := Add(s, GOLDEN);
      s2 := Splitmix32(s);
      s := Add(s, GOLDEN);
      s3 := Splitmix32(s);
    }

    /** A fraction in [0, 1), and the next state. */
    method Next() returns (r: real)
      modifies this
      ensures View() == Stepped(old(View()))
      ensures r == Fraction(old(View())) && 0.0 <= r < 1.0
      ensures Drawn(old(View()), r, View())
      ensures old(View()) != ZERO ==> View() != ZERO
    {
      var result := Imul(Rotl(Imul(s1, 5), 7), 9);
      var t := Shl(s1, 9);
      s2 := Xor(s2, s0);
      s3 := Xor(s3, s1);
      s1 := Xor(s1, s2);
      s0 := Xor(s0, s3);
      s2 := Xor(s2, t);
      s3 := Rotl(s3, 11);
      r := Value(result) as real / RANGE as real;
      assert result == Output(old(View()));
      DrawIs(old(View()));
      StepsToZeroIff(old(View()));
    }

    /** An element of the list, or nothing of an empty one. */
    method Pick<T>(list: seq<T>) returns (choice: Option<T>)
      modifies this
      ensures View() == Stepped(old(View()))
      ensures choice == if list == [] then None else Some(list[IndexFor(Fraction(old(View())), |list|)])
    {
      var r := Next();
      if list == [] {
        return None;
      }
      choice := Some(list[IndexFor(r, |list|)]);
    }

    method Capture() returns (state: State)
      ensures state == View()
    {
      state := State(s0, s1, s2, s3);
    }

    method Restore(state: State)
      modifies this
      ensures View() == state
    {
      s0, s1, s2, s3 := state.s0, state.s1, state.s2, state.s3;
    }

    /** Draws any number of values; what they are is settled by the state alone. */
    method Draw(n: nat) returns (outputs: seq<real>)
      modifies this
      ensures View() == Draws(old(View()), n) && outputs == Stream(old(View()), n)
    {
      outputs := [];
      ghost var start := View();
      for i := 0 to n
        invariant View() == Draws(start, i) && outputs == Stream(start, i)
      {
        var r := Next();
        outputs := outputs + [r];
      }
    }
  }

  lemma ScaledBelow(r: real, n: nat)
    requires 0.0 <= r < 1.0 && n > 0
    ensures 0 <= (r * n as real).Floor < n
  {
    assert 0.0 <= r * n as real;
    assert (1.0 - r) * n as real > 0.0;
  }

  /** Restoring a capture reproduces the whole future stream, whatever was drawn in between. */
  method CaptureRestore(random: SeededRandom, between: nat, n: nat) returns (replayed: seq<real>)
    modifies random
    ensures replayed == Stream(old(random.View()), n) && random.View() == Draws(old(random.View()), n)
  {
    var state := random.Capture();
    var discarded := random.Draw(between);
    random.Restore(state);
    replayed := random.Draw(n);
  }
}
