/** The word functions and constants of FIPS 180-4 that src/core/sha256.c has to agree with. */
module Sha256Standard {
  import opened Cbor
  import opened Sha256

  // ---------- Section 4.1.2, bit by bit ----------

  /** Bit `i`, counted from the least significant one. */
  predicate Bit(x: word, i: bv6)
    requires i < 32
  {
    (x >> i) & 1 == 1
  }

  /** The choice function takes the bit of `y` where `x` has a one, and of `z` where it has a zero. */
  lemma ChooseBits(x: word, y: word, z: word, i: bv6)
    requires i < 32
    ensures Bit(Ch(x, y, z), i) <==> if Bit(x, i) then Bit(y, i) else Bit(z, i)
  {
    hide Bit;
    ChooseSpelled(x, y, z, i);
  }

  lemma ChooseSpelled(x: word, y: word, z: word, i: bv6)
    requires i < 32
    ensures Bit((x & y) ^ (!x & z), i) <==> if Bit(x, i) then Bit(y, i) else Bit(z, i)
  {
  }

  /** Two of three bits are set. */
  predicate TwoOf(a: bool, b: bool, c: bool) {
    (a && b) || (a && c) || (b && c)
  }

  /** The majority function has the bits that at least two words share. */
  lemma MajorityBits(x: word, y: word, z: word, i: bv6)
    requires i < 32
    ensures Bit(Maj(x, y, z), i) <==> TwoOf(Bit(x, i), Bit(y, i), Bit(z, i))
  {
    hide Bit, TwoOf;
    MajoritySpelled(x, y, z, i);
  }

  lemma MajoritySpelled(x: word, y: word, z: word, i: bv6)
    requires i < 32
    ensures Bit((x & y) ^ (x & z) ^ (y & z), i) <==> TwoOf(Bit(x, i), Bit(y, i), Bit(z, i))
  {
  }

  function Around(i: bv6, n: bv6): (j: bv6)
    requires i < 32 && n < 32
    ensures j < 32
  {
    (i + n) % 32
  }

  predicate Beyond(x: word, i: bv6, n: bv6)
    requires i < 32 && n < 32
  {
    i + n < 32 && Bit(x, i + n)
  }

  /** Rotation to the right moves bit `i + n`, modulo 32, to bit `i`. */
  lemma RotateBits(x: word, n: bv6, i: bv6)
    requires 0 < n < 32 && i < 32
    ensures Bit(Rotr(x, n), i) <==> Bit(x, (i + n) % 32)
  {
    hide Bit;
    RotateSpelled(x, n, i);
  }

  lemma RotateAround(x: word, n: bv6, i: bv6)
    requires 0 < n < 32 && i < 32
    ensures Bit(Rotr(x, n), i) <==> Bit(x, Around(i, n))
  {
    hide Bit, Rotr;
    RotateBits(x, n, i);
  }

  lemma RotateSpelled(x: word, n: bv6, i: bv6)
    requires 0 < n < 32 && i < 32
    ensures Bit((x >> n) | (x << (32 - n)), i) <==> Bit(x, (i + n) % 32)
  {
  }

  /** A shift to the right moves it there if there is one. */
  lemma ShiftBits(x: word, n: bv6, i: bv6)
    requires n < 32 && i < 32
    ensures Bit(Shr(x, n), i) <==> Beyond(x, i, n)
  {
    hide Bit;
    ShiftSpelled(x, n, i);
  }

  lemma ShiftSpelled(x: word, n: bv6, i: bv6)
    requires n < 32 && i < 32
    ensures Bit(x >> n, i) <==> i + n < 32 && Bit(x, i + n)
  {
  }

  predicate Odd(a: bool, b: bool, c: bool) {
    (a != b) != c
  }

  lemma SumBits(x: word, y: word, z: word, i: bv6)
    requires i < 32
    ensures Bit(Sum(x, y, z), i) <==> Odd(Bit(x, i), Bit(y, i), Bit(z, i))
  {
    hide Bit, Odd;
    SumSpelled(x, y, z, i);
  }

  lemma SumSpelled(x: word, y: word, z: word, i: bv6)
    requires i < 32
    ensures Bit(x ^ y ^ z, i) <==> Odd(Bit(x, i), Bit(y, i), Bit(z, i))
  {
  }

  /** The sigma functions add three rotated words bit by bit, the small ones two and a shifted one. */
  lemma BigSigma0Bits(x: word, i: bv6)
    requires i < 32
    ensures Bit(BigSigma0(x), i) <==> Odd(Bit(x, Around(i, 2)), Bit(x, Around(i, 13)), Bit(x, Around(i, 22)))
  {
    hide Bit, Odd, Rotr, Shr, Around, Beyond, Sum;
    RotateAround(x, 2, i);
    RotateAround(x, 13, i);
    RotateAround(x, 22, i);
    SumBits(Rotr(x, 2), Rotr(x, 13), Rotr(x, 22), i);
  }

  lemma BigSigma1Bits(x: word, i: bv6)
    requires i < 32
    ensures Bit(BigSigma1(x), i) <==> Odd(Bit(x, Around(i, 6)), Bit(x, Around(i, 11)), Bit(x, Around(i, 25)))
  {
    hide Bit, Odd, Rotr, Shr, Around, Beyond, Sum;
    RotateAround(x, 6, i);
    RotateAround(x, 11, i);
    RotateAround(x, 25, i);
    SumBits(Rotr(x, 6), Rotr(x, 11), Rotr(x, 25), i);
  }

  lemma SmallSigma0Bits(x: word, i: bv6)
    requires i < 32
    ensures Bit(SmallSigma0(x), i) <==> Odd(Bit(x, Around(i, 7)), Bit(x, Around(i, 18)), Beyond(x, i, 3))
  {
    hide Bit, Odd, Rotr, Shr, Around, Beyond, Sum;
    RotateAround(x, 7, i);
    RotateAround(x, 18, i);
    ShiftBits(x, 3, i);
    SumBits(Rotr(x, 7), Rotr(x, 18), Shr(x, 3), i);
  }

  lemma SmallSigma1Bits(x: word, i: bv6)
    requires i < 32
    ensures Bit(SmallSigma1(x), i) <==> Odd(Bit(x, Around(i, 17)), Bit(x, Around(i, 19)), Beyond(x, i, 10))
  {
    hide Bit, Odd, Rotr, Shr, Around, Beyond, Sum;
    RotateAround(x, 17, i);
    RotateAround(x, 19, i);
    ShiftBits(x, 10, i);
    SumBits(Rotr(x, 17), Rotr(x, 19), Shr(x, 10), i);
  }

  // ---------- The first sixty-four primes ----------

  predicate IsPrime(n: nat) {
    n >= 2 && forall d :: 2 <= d < n ==> n % d != 0
  }

  function PrimeRow(i: nat): (r: seq<nat>)
    requires i < 8
    ensures |r| == 8
  {
    match i
    case 0 => [2, 3, 5, 7, 11, 13, 17, 19]
    case 1 => [23, 29, 31, 37, 41, 43, 47, 53]
    case 2 => [59, 61, 67, 71, 73, 79, 83, 89]
    case 3 => [97, 101, 103, 107, 109, 113, 127, 131]
    case 4 => [137, 139, 149, 151, 157, 163, 167, 173]
    case 5 => [179, 181, 191, 193, 197, 199, 211, 223]
    case 6 => [227, 229, 233, 239, 241, 251, 257, 263]
    case _ => [269, 271, 277, 281, 283, 293, 307, 311]
  }

  function Prime(t: nat): nat
    requires t < 64
  {
    PrimeRow(t / 8)[t % 8]
  }

  /** No prime below 18 divides the number, unless it is that prime. */
  predicate Trial(n: nat) {
    && (n % 2 != 0 || n == 2) && (n % 3 != 0 || n == 3) && (n % 5 != 0 || n == 5) && (n % 7 != 0 || n == 7)
    && (n % 11 != 0 || n == 11) && (n % 13 != 0 || n == 13) && (n % 17 != 0 || n == 17)
  }

  lemma SmallFactor(n: nat, d: nat)
    requires 2 <= d <= 18 && d < n && n % d == 0
    ensures !Trial(n)
  {
    var q := if d % 2 == 0 then 2 else if d % 3 == 0 then 3 else d;
    assert q in {2, 3, 5, 7, 11, 13, 17};
    FactorOfFactor(n, d, q);
  }

  lemma FactorOfFactor(n: nat, d: nat, q: nat)
    requires d > 0 && q > 0 && d % q == 0 && n % d == 0
    ensures n % q == 0
  {
    var e, k := d / q, n / d;
    assert n == d * k && d == q * e;
    assert d * k == e * k * q;
    Divides(n, e * k, q);
  }

  /** Below 324 trial division by those primes decides. */
  lemma TrialDecides(n: nat)
    requires 2 <= n < 324
    ensures IsPrime(n) <==> Trial(n)
  {
    if Trial(n) {
      forall d | 2 <= d < n
        ensures n % d != 0
      {
        if n % d == 0 {
          TrialFinds(n, d);
        }
      }
    } else {
      var q := if n % 2 == 0 && n != 2 then 2 else if n % 3 == 0 && n != 3 then 3 else if n % 5 == 0 && n != 5 then 5
               else if n % 7 == 0 && n != 7 then 7 else if n % 11 == 0 && n != 11 then 11
               else if n % 13 == 0 && n != 13 then 13 else 17;
      assert n % q == 0;
    }
  }

  lemma TrialFinds(n: nat, d: nat)
    requires 2 <= d < n < 324 && n % d == 0
    ensures !Trial(n)
  {
    hide Trial;
    if d <= 18 {
      SmallFactor(n, d);
    } else {
      OtherFactor(n, d);
      SmallFactor(n, n / d);
    }
  }

  lemma OtherFactor(n: nat, d: nat)
    requires 18 < d < n < 324 && n % d == 0
    ensures 2 <= n / d <= 18 && n % (n / d) == 0
  {
    var k := n / d;
    assert n == d * k;
    ProductGrows(d, k);
    Divides(n, d, k);
  }

  lemma Divides(n: nat, d: nat, k: nat)
    requires n == d * k && k > 0
    ensures n % k == 0
  {
    var q, r := n / k, n % k;
    assert n == q * k + r;
    assert (d - q) * k == r;
    assert d - q >= 1 ==> (d - q) * k >= k;
    assert d - q <= -1 ==> (d - q) * k + k <= 0;
  }

  lemma ProductGrows(d: nat, k: nat)
    requires d > 18 && d * k < 324
    ensures k <= 18
  {
    assert d * k >= 18 * k;
  }

  /** The t-th number passes trial division, and no number between it and its predecessor does. */
  predicate Listed(t: nat)
    requires t < 64
  {
    && 2 <= Prime(t) < 324 && Trial(Prime(t)) && (t == 0 ==> Prime(t) == 2)
    && (t > 0 ==> Prime(t - 1) < Prime(t) && forall n :: Prime(t - 1) < n < Prime(t) ==> !Trial(n))
  }

  // ---------- Sections 4.2.2 and 5.3.3: the constants ----------

  const WORDS: nat := 0x1_0000_0000

  function Cube(r: nat): nat {
    r * r * r
  }

  /** `k` is made of the first 32 bits behind the point of the cube root of `p`. */
  ghost predicate CubeRootBits(p: nat, k: number) {
    exists r: nat :: CubeBracket(p, r) && k == r % WORDS
  }

  predicate CubeBracket(p: nat, r: nat) {
    Cube(r) <= p * Cube(WORDS) < Cube(r + 1)
  }

  ghost predicate SquareRootBits(p: nat, k: number) {
    exists r: nat :: r * r <= p * (WORDS * WORDS) < (r + 1) * (r + 1) && k == r % WORDS
  }

  /** No number strictly between the two passes trial division. */
  predicate NoneBetween(low: nat, high: nat)
    decreases high - low
  {
    low + 1 >= high || (!Trial(low + 1) && NoneBetween(low + 1, high))
  }

  lemma {:induction false} NoneIsNone(low: nat, high: nat)
    requires NoneBetween(low, high)
    ensures forall n :: low < n < high ==> !Trial(n)
    decreases high - low
  {
    if low + 1 < high {
      NoneIsNone(low + 1, high);
    }
  }

  lemma Entry(t: nat, before: nat, p: nat, k: number, r: nat)
    requires t < 64 && Prime(t) == p && 2 <= p < 324 && Trial(p)
    requires if t == 0 then p == 2 else Prime(t - 1) == before < p && NoneBetween(before, p)
    requires RoundNumber(t) == k == r % WORDS && CubeBracket(p, r)
    ensures Listed(t) && CubeRootBits(Prime(t), RoundNumber(t))
  {
    hide Prime, RoundNumber, Trial, CubeBracket, NoneBetween;
    if t > 0 {
      NoneIsNone(before, p);
    }
  }

  lemma Entries0(t: nat)
    requires 0 <= t < 4
    ensures Listed(t) && CubeRootBits(Prime(t), RoundNumber(t))
  {
    hide Listed, CubeRootBits;
    Entry(0, 1, 2, 0x428a2f98, 0x1_428a2f98);
    Entry(1, 2, 3, 0x71374491, 0x1_71374491);
    Entry(2, 3, 5, 0xb5c0fbcf, 0x1_b5c0fbcf);
    Entry(3, 5, 7, 0xe9b5dba5, 0x1_e9b5dba5);
  }

  lemma Entries4(t: nat)
    requires 4 <= t < 8
    ensures Listed(t) && CubeRootBits(Prime(t), RoundNumber(t))
  {
    hide Listed, CubeRootBits;
    Entry(4, 7, 11, 0x3956c25b, 0x2_3956c25b);
    Entry(5, 11, 13, 0x59f111f1, 0x2_59f111f1);
    Entry(6, 13, 17, 0x923f82a4, 0x2_923f82a4);
    Entry(7, 17, 19, 0xab1c5ed5, 0x2_ab1c5ed5);
  }

  lemma Entries8(t: nat)
    requires 8 <= t < 12
    ensures Listed(t) && CubeRootBits(Prime(t), RoundNumber(t))
  {
    hide Listed, CubeRootBits;
    Entry(8, 19, 23, 0xd807aa98, 0x2_d807aa98);
    Entry(9, 23, 29, 0x12835b01, 0x3_12835b01);
    Entry(10, 29, 31, 0x243185be, 0x3_243185be);
    Entry(11, 31, 37, 0x550c7dc3, 0x3_550c7dc3);
  }

  lemma Entries12(t: nat)
    requires 12 <= t < 16
    ensures Listed(t) && CubeRootBits(Prime(t), RoundNumber(t))
  {
    hide Listed, CubeRootBits;
    Entry(12, 37, 41, 0x72be5d74, 0x3_72be5d74);
    Entry(13, 41, 43, 0x80deb1fe, 0x3_80deb1fe);
    Entry(14, 43, 47, 0x9bdc06a7, 0x3_9bdc06a7);
    Entry(15, 47, 53, 0xc19bf174, 0x3_c19bf174);
  }

  lemma Entries16(t: nat)
    requires 16 <= t < 20
    ensures Listed(t) && CubeRootBits(Prime(t), RoundNumber(t))
  {
    hide Listed, CubeRootBits;
    Entry(16, 53, 59, 0xe49b69c1, 0x3_e49b69c1);
    Entry(17, 59, 61, 0xefbe4786, 0x3_efbe4786);
    Entry(18, 61, 67, 0x0fc19dc6, 0x4_0fc19dc6);
    Entry(19, 67, 71, 0x240ca1cc, 0x4_240ca1cc);
  }

  lemma Entries20(t: nat)
    requires 20 <= t < 24
    ensures Listed(t) && CubeRootBits(Prime(t), RoundNumber(t))
  {
    hide Listed, CubeRootBits;
    Entry(20, 71, 73, 0x2de92c6f, 0x4_2de92c6f);
    Entry(21, 73, 79, 0x4a7484aa, 0x4_4a7484aa);
    Entry(22, 79, 83, 0x5cb0a9dc, 0x4_5cb0a9dc);
    Entry(23, 83, 89, 0x76f988da, 0x4_76f988da);
  }

  lemma Entries24(t: nat)
    requires 24 <= t < 28
    ensures Listed(t) && CubeRootBits(Prime(t), RoundNumber(t))
  {
    hide Listed, CubeRootBits;
    Entry(24, 89, 97, 0x983e5152, 0x4_983e5152);
    Entry(25, 97, 101, 0xa831c66d, 0x4_a831c66d);
    Entry(26, 101, 103, 0xb00327c8, 0x4_b00327c8);
    Entry(27, 103, 107, 0xbf597fc7, 0x4_bf597fc7);
  }

  lemma Entries28(t: nat)
    requires 28 <= t < 32
    ensures Listed(t) && CubeRootBits(Prime(t), RoundNumber(t))
  {
    hide Listed, CubeRootBits;
    Entry(28, 107, 109, 0xc6e00bf3, 0x4_c6e00bf3);
    Entry(29, 109, 113, 0xd5a79147, 0x4_d5a79147);
    Entry(30, 113, 127, 0x06ca6351, 0x5_06ca6351);
    Entry(31, 127, 131, 0x14292967, 0x5_14292967);
  }

  lemma Entries32(t: nat)
    requires 32 <= t < 36
    ensures Listed(t) && CubeRootBits(Prime(t), RoundNumber(t))
  {
    hide Listed, CubeRootBits;
    Entry(32, 131, 137, 0x27b70a85, 0x5_27b70a85);
    Entry(33, 137, 139, 0x2e1b2138, 0x5_2e1b2138);
    Entry(34, 139, 149, 0x4d2c6dfc, 0x5_4d2c6dfc);
    Entry(35, 149, 151, 0x53380d13, 0x5_53380d13);
  }

  lemma Entries36(t: nat)
    requires 36 <= t < 40
    ensures Listed(t) && CubeRootBits(Prime(t), RoundNumber(t))
  {
    hide Listed, CubeRootBits;
    Entry(36, 151, 157, 0x650a7354, 0x5_650a7354);
    Entry(37, 157, 163, 0x766a0abb, 0x5_766a0abb);
    Entry(38, 163, 167, 0x81c2c92e, 0x5_81c2c92e);
    Entry(39, 167, 173, 0x92722c85, 0x5_92722c85);
  }

  lemma Entries40(t: nat)
    requires 40 <= t < 44
    ensures Listed(t) && CubeRootBits(Prime(t), RoundNumber(t))
  {
    hide Listed, CubeRootBits;
    Entry(40, 173, 179, 0xa2bfe8a1, 0x5_a2bfe8a1);
    Entry(41, 179, 181, 0xa81a664b, 0x5_a81a664b);
    Entry(42, 181, 191, 0xc24b8b70, 0x5_c24b8b70);
    Entry(43, 191, 193, 0xc76c51a3, 0x5_c76c51a3);
  }

  lemma Entries44(t: nat)
    requires 44 <= t < 48
    ensures Listed(t) && CubeRootBits(Prime(t), RoundNumber(t))
  {
    hide Listed, CubeRootBits;
    Entry(44, 193, 197, 0xd192e819, 0x5_d192e819);
    Entry(45, 197, 199, 0xd6990624, 0x5_d6990624);
    Entry(46, 199, 211, 0xf40e3585, 0x5_f40e3585);
    Entry(47, 211, 223, 0x106aa070, 0x6_106aa070);
  }

  lemma Entries48(t: nat)
    requires 48 <= t < 52
    ensures Listed(t) && CubeRootBits(Prime(t), RoundNumber(t))
  {
    hide Listed, CubeRootBits;
    Entry(48, 223, 227, 0x19a4c116, 0x6_19a4c116);
    Entry(49, 227, 229, 0x1e376c08, 0x6_1e376c08);
    Entry(50, 229, 233, 0x2748774c, 0x6_2748774c);
    Entry(51, 233, 239, 0x34b0bcb5, 0x6_34b0bcb5);
  }

  lemma Entries52(t: nat)
    requires 52 <= t < 56
    ensures Listed(t) && CubeRootBits(Prime(t), RoundNumber(t))
  {
    hide Listed, CubeRootBits;
    Entry(52, 239, 241, 0x391c0cb3, 0x6_391c0cb3);
    Entry(53, 241, 251, 0x4ed8aa4a, 0x6_4ed8aa4a);
    Entry(54, 251, 257, 0x5b9cca4f, 0x6_5b9cca4f);
    Entry(55, 257, 263, 0x682e6ff3, 0x6_682e6ff3);
  }

  lemma Entries56(t: nat)
    requires 56 <= t < 60
    ensures Listed(t) && CubeRootBits(Prime(t), RoundNumber(t))
  {
    hide Listed, CubeRootBits;
    Entry(56, 263, 269, 0x748f82ee, 0x6_748f82ee);
    Entry(57, 269, 271, 0x78a5636f, 0x6_78a5636f);
    Entry(58, 271, 277, 0x84c87814, 0x6_84c87814);
    Entry(59, 277, 281, 0x8cc70208, 0x6_8cc70208);
  }

  lemma Entries60(t: nat)
    requires 60 <= t < 64
    ensures Listed(t) && CubeRootBits(Prime(t), RoundNumber(t))
  {
    hide Listed, CubeRootBits;
    Entry(60, 281, 283, 0x90befffa, 0x6_90befffa);
    Entry(61, 283, 293, 0xa4506ceb, 0x6_a4506ceb);
    Entry(62, 293, 307, 0xbef9a3f7, 0x6_bef9a3f7);
    Entry(63, 307, 311, 0xc67178f2, 0x6_c67178f2);
  }

  /** All sixty-four at once. */
  lemma AllEntries(t: nat)
    requires t < 64
    ensures Listed(t) && CubeRootBits(Prime(t), RoundNumber(t))
  {
    hide Listed, CubeRootBits;
    match t / 4 {
      case 0 => Entries0(t);
      case 1 => Entries4(t);
      case 2 => Entries8(t);
      case 3 => Entries12(t);
      case 4 => Entries16(t);
      case 5 => Entries20(t);
      case 6 => Entries24(t);
      case 7 => Entries28(t);
      case 8 => Entries32(t);
      case 9 => Entries36(t);
      case 10 => Entries40(t);
      case 11 => Entries44(t);
      case 12 => Entries48(t);
      case 13 => Entries52(t);
      case 14 => Entries56(t);
      case _ => Entries60(t);
    }
  }

  /**
   * The round constants are the first 32 bits of the fractional parts of the cube roots of the first
   * sixty-four primes: each number in the table is prime and follows the one before it among the primes.
   */
  lemma RoundConstantsAreRoots(t: nat)
    requires t < 64
    ensures IsPrime(Prime(t)) && (t == 0 ==> Prime(t) == 2)
    ensures t > 0 ==> Prime(t - 1) < Prime(t) && forall n :: Prime(t - 1) < n < Prime(t) ==> !IsPrime(n)
    ensures CubeRootBits(Prime(t), RoundNumber(t))
  {
    hide IsPrime, Trial, Prime, RoundNumber, CubeRootBits;
    AllEntries(t);
    TrialDecides(Prime(t));
    if t > 0 {
      AllEntries(t - 1);
      forall n | Prime(t - 1) < n < Prime(t)
        ensures !IsPrime(n)
      {
        TrialDecides(n);
      }
    }
  }

  /** The initial words as integers. */
  function InitialRow(): (r: seq<number>)
    ensures |r| == 8
  {
    [0x6a09e667, 0xbb67ae85, 0x3c6ef372, 0xa54ff53a, 0x510e527f, 0x9b05688c, 0x1f83d9ab, 0x5be0cd19]
  }

  lemma Root(t: nat, p: nat, k: number, r: nat)
    requires t < 8 && InitialRow()[t] == k == r % WORDS && Prime(t) == p
    requires r * r <= p * (WORDS * WORDS) < (r + 1) * (r + 1)
    ensures SquareRootBits(Prime(t), InitialRow()[t])
  {
    hide Prime, InitialRow;
  }

  /** The initial words are the first 32 bits of the fractional parts of the square roots of the first eight primes. */
  lemma InitialWordsAreRoots(t: nat)
    requires t < 8
    ensures SquareRootBits(Prime(t), InitialRow()[t])
  {
    hide SquareRootBits;
    Root(0, 2, 0x6a09e667, 0x1_6a09e667);
    Root(1, 3, 0xbb67ae85, 0x1_bb67ae85);
    Root(2, 5, 0x3c6ef372, 0x2_3c6ef372);
    Root(3, 7, 0xa54ff53a, 0x2_a54ff53a);
    Root(4, 11, 0x510e527f, 0x3_510e527f);
    Root(5, 13, 0x9b05688c, 0x3_9b05688c);
    Root(6, 17, 0x1f83d9ab, 0x4_1f83d9ab);
    Root(7, 19, 0x5be0cd19, 0x4_5be0cd19);
  }

  lemma InitialWordsAreRow()
    ensures var r := InitialRow();
      && INITIAL.a == Bits(r[0]) && INITIAL.b == Bits(r[1]) && INITIAL.c == Bits(r[2]) && INITIAL.d == Bits(r[3])
      && INITIAL.e == Bits(r[4]) && INITIAL.f == Bits(r[5]) && INITIAL.g == Bits(r[6]) && INITIAL.h == Bits(r[7])
  {
    hide Bits;
    InitialBits();
  }

  lemma InitialBits()
    ensures Bits(0x6a09e667) == 0x6a09e667 && Bits(0xbb67ae85) == 0xbb67ae85
    ensures Bits(0x3c6ef372) == 0x3c6ef372 && Bits(0xa54ff53a) == 0xa54ff53a
    ensures Bits(0x510e527f) == 0x510e527f && Bits(0x9b05688c) == 0x9b05688c
    ensures Bits(0x1f83d9ab) == 0x1f83d9ab && Bits(0x5be0cd19) == 0x5be0cd19
  {
  }
}
