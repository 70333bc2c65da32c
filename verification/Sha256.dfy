/** SHA-256 (src/core/sha256.c) against FIPS 180-4. */
module Sha256 {
  import opened Cbor

  /** uint32_t: sums wrap, shifts drop what leaves the word. */
  type word = bv32

  function Shr(x: word, n: bv6): word
    requires n <= 32
  {
    x >> n
  }

  function Shl(x: word, n: bv6): word
    requires n <= 32
  {
    x << n
  }

  function Plus(x: word, y: word): word {
    x + y
  }

  /** The values of words as integers. */
  type number = x: int | 0 <= x < 0x1_0000_0000

  function Bits(x: number): word {
    x as word
  }

  /** Section 4.2.2, in rows of eight. */
  function RoundRow(i: nat): (r: seq<number>)
    requires i < 8
    ensures |r| == 8
  {
    match i
    case 0 => [0x428a2f98, 0x71374491, 0xb5c0fbcf, 0xe9b5dba5, 0x3956c25b, 0x59f111f1, 0x923f82a4, 0xab1c5ed5]
    case 1 => [0xd807aa98, 0x12835b01, 0x243185be, 0x550c7dc3, 0x72be5d74, 0x80deb1fe, 0x9bdc06a7, 0xc19bf174]
    case 2 => [0xe49b69c1, 0xefbe4786, 0x0fc19dc6, 0x240ca1cc, 0x2de92c6f, 0x4a7484aa, 0x5cb0a9dc, 0x76f988da]
    case 3 => [0x983e5152, 0xa831c66d, 0xb00327c8, 0xbf597fc7, 0xc6e00bf3, 0xd5a79147, 0x06ca6351, 0x14292967]
    case 4 => [0x27b70a85, 0x2e1b2138, 0x4d2c6dfc, 0x53380d13, 0x650a7354, 0x766a0abb, 0x81c2c92e, 0x92722c85]
    case 5 => [0xa2bfe8a1, 0xa81a664b, 0xc24b8b70, 0xc76c51a3, 0xd192e819, 0xd6990624, 0xf40e3585, 0x106aa070]
    case 6 => [0x19a4c116, 0x1e376c08, 0x2748774c, 0x34b0bcb5, 0x391c0cb3, 0x4ed8aa4a, 0x5b9cca4f, 0x682e6ff3]
    case _ => [0x748f82ee, 0x78a5636f, 0x84c87814, 0x8cc70208, 0x90befffa, 0xa4506ceb, 0xbef9a3f7, 0xc67178f2]
  }

  function RoundNumber(t: nat): number
    requires t < 64
  {
    RoundRow(t / 8)[t % 8]
  }

  function RoundConstant(t: nat): word
    requires t < 64
  {
    Bits(RoundNumber(t))
  }

  datatype Hash = Hash(a: word, b: word, c: word, d: word, e: word, f: word, g: word, h: word)

  /** Section 5.3.3. */
  const INITIAL := Hash(0x6a09e667, 0xbb67ae85, 0x3c6ef372, 0xa54ff53a, 0x510e527f, 0x9b05688c, 0x1f83d9ab, 0x5be0cd19)

  // ---------- Section 4.1.2: functions on words ----------

  function Rotr(x: word, n: bv6): word
    requires 0 < n < 32
  {
    (x >> n) | (x << (32 - n))
  }

  function Ch(x: word, y: word, z: word): word {
    (x & y) ^ (!x & z)
  }

  function Maj(x: word, y: word, z: word): word {
    Sum(x & y, x & z, y & z)
  }

  /** Addition of three words without carry. */
  function Sum(x: word, y: word, z: word): word {
    x ^ y ^ z
  }

  function BigSigma0(x: word): word {
    Sum(Rotr(x, 2), Rotr(x, 13), Rotr(x, 22))
  }

  function BigSigma1(x: word): word {
    Sum(Rotr(x, 6), Rotr(x, 11), Rotr(x, 25))
  }

  function SmallSigma0(x: word): word {
    Sum(Rotr(x, 7), Rotr(x, 18), Shr(x, 3))
  }

  function SmallSigma1(x: word): word {
    Sum(Rotr(x, 17), Rotr(x, 19), Shr(x, 10))
  }

  // ---------- Section 6.2.2: one block ----------

  predicate IsBlock(b: bytes) {
    |b| == 64
  }

  function Word(p: byte, q: byte, r: byte, s: byte): word {
    Shl(p as word, 24) | Shl(q as word, 16) | Shl(r as word, 8) | (s as word)
  }

  function WordAt(b: bytes, t: nat): word
    requires 4 * t + 3 < |b|
  {
    Word(b[4 * t], b[4 * t + 1], b[4 * t + 2], b[4 * t + 3])
  }

  /** The message schedule, its sum from the oldest word to the newest. */
  function Schedule(b: bytes, t: nat): word
    requires IsBlock(b)
  {
    if t < 16 then WordAt(b, t)
    else
      Plus(Plus(Plus(Schedule(b, t - 16), SmallSigma0(Schedule(b, t - 15))), Schedule(b, t - 7)),
           SmallSigma1(Schedule(b, t - 2)))
  }

  function Round(s: Hash, k: word, w: word): Hash {
    var t1 := Plus(Plus(Plus(Plus(s.h, BigSigma1(s.e)), Ch(s.e, s.f, s.g)), k), w);
    var t2 := Plus(BigSigma0(s.a), Maj(s.a, s.b, s.c));
    Hash(Plus(t1, t2), s.a, s.b, s.c, Plus(s.d, t1), s.e, s.f, s.g)
  }

  function Rounds(s: Hash, b: bytes, t: nat): Hash
    requires IsBlock(b) && t <= 64
  {
    if t == 0 then s else Round(Rounds(s, b, t - 1), RoundConstant(t - 1), Schedule(b, t - 1))
  }

  function Add(s: Hash, r: Hash): Hash {
    Hash(Plus(s.a, r.a), Plus(s.b, r.b), Plus(s.c, r.c), Plus(s.d, r.d), Plus(s.e, r.e), Plus(s.f, r.f), Plus(s.g, r.g),
         Plus(s.h, r.h))
  }

  function Compress(s: Hash, b: bytes): Hash
    requires IsBlock(b)
  {
    Add(s, Rounds(s, b, 64))
  }

  // ---------- Sections 5.1.1 and 5.2.1: padding and parsing ----------

  function Zeros(n: nat): (z: bytes)
    ensures |z| == n
  {
    seq(n, _ => 0)
  }

  /** The fewest zero bytes that leave room for just the length in the last block. */
  function ZeroCount(n: nat): nat {
    (119 - n % 64) % 64
  }

  function Padded(m: bytes): bytes {
    m + [0x80] + Zeros(ZeroCount(|m|)) + BigEndian(8 * |m| % TWO64, 8)
  }

  /** Whole blocks folded into the hash from left to right. */
  function Absorb(s: Hash, m: bytes): Hash
    requires |m| % 64 == 0
  {
    if m == [] then s else Compress(Absorb(s, m[..|m| - 64]), m[|m| - 64..])
  }

  lemma PaddedIsBlocks(m: bytes)
    ensures |Padded(m)| % 64 == 0 && ZeroCount(|m|) < 64
    ensures m <= Padded(m)
  {
    assert (|m| + 1 + ZeroCount(|m|) + 8) % 64 == 0;
  }

  function LowByte(x: word): byte {
    (x & 0xff) as bv8 as int
  }

  function WordBytes(x: word): bytes {
    [LowByte(Shr(x, 24)), LowByte(Shr(x, 16)), LowByte(Shr(x, 8)), LowByte(x)]
  }

  function HashBytes(s: Hash): (d: bytes)
    ensures |d| == 32
  {
    WordBytes(s.a) + WordBytes(s.b) + WordBytes(s.c) + WordBytes(s.d) +
    WordBytes(s.e) + WordBytes(s.f) + WordBytes(s.g) + WordBytes(s.h)
  }

  function Digest(m: bytes): (d: bytes)
    ensures |d| == 32
  {
    PaddedIsBlocks(m);
    HashBytes(Absorb(INITIAL, Padded(m)))
  }

  function HexDigit(n: nat): char
    requires n < 16
  {
    "0123456789abcdef"[n]
  }

  function Hex(b: bytes): (s: string)
    ensures |s| == 2 * |b| && ByteText(s)
  {
    if b == [] then "" else [HexDigit(b[0] / 16), HexDigit(b[0] % 16)] + Hex(b[1..])
  }

  lemma {:induction false} AbsorbMore(s: Hash, m: bytes, b: bytes)
    requires |m| % 64 == 0 && IsBlock(b)
    ensures Absorb(s, m + b) == Compress(Absorb(s, m), b)
  {
    hide Compress;
    assert (m + b)[..|m|] == m && (m + b)[|m|..] == b;
  }

  /** The state after these whole blocks. */
  ghost predicate Absorbed(s: Hash, m: bytes) {
    |m| % 64 == 0 && s == Absorb(INITIAL, m)
  }

  lemma AbsorbedMore(s: Hash, m: bytes, b: bytes)
    requires Absorbed(s, m) && IsBlock(b)
    ensures Absorbed(Compress(s, b), m + b)
  {
    hide Compress, Absorb;
    AbsorbMore(INITIAL, m, b);
  }

  lemma AbsorbedDigest(s: Hash, m: bytes)
    requires Absorbed(s, Padded(m))
    ensures HashBytes(s) == Digest(m)
  {
    hide HashBytes, Padded, Absorb;
  }

  // ---------- The incremental computation ----------

  /** etb_sha256_transform */
  method Transform(state: Hash, block: bytes) returns (out: Hash)
    requires IsBlock(block)
    ensures out == Compress(state, block)
  {
    hide Rounds, Plus;
    var w := Expand(block);
    var r := Mix(state, block, w);
    out := Hash(Plus(state.a, r.a), Plus(state.b, r.b), Plus(state.c, r.c), Plus(state.d, r.d),
                Plus(state.e, r.e), Plus(state.f, r.f), Plus(state.g, r.g), Plus(state.h, r.h));
  }

  /** The two loops that fill the schedule (source lines 51-63). */
  method Expand(block: bytes) returns (w: array<word>)
    requires IsBlock(block)
    ensures fresh(w) && w.Length == 64 && forall t :: 0 <= t < 64 ==> w[t] == Schedule(block, t)
  {
    hide Rotr, SmallSigma0, SmallSigma1, WordAt, Plus;
    w := new word[64](_ => 0);
    var i := 0;
    while i < 16
      invariant 0 <= i <= 16
      invariant forall t :: 0 <= t < i ==> w[t] == Schedule(block, t)
    {
      w[i] := WordAt(block, i);
      i := i + 1;
    }
    while i < 64
      invariant 16 <= i <= 64
      invariant forall t :: 0 <= t < i ==> w[t] == Schedule(block, t)
    {
      var s0 := SmallSigma0(w[i - 15]);
      var s1 := SmallSigma1(w[i - 2]);
      w[i] := Plus(Plus(Plus(w[i - 16], s0), w[i - 7]), s1);
      i := i + 1;
    }
  }

  /** The sixty-four rounds (source lines 65-90). */
  method Mix(state: Hash, block: bytes, w: array<word>) returns (out: Hash)
    requires IsBlock(block) && w.Length == 64
    requires forall t :: 0 <= t < 64 ==> w[t] == Schedule(block, t)
    ensures out == Rounds(state, block, 64)
  {
    hide Rotr, Ch, Maj, BigSigma0, BigSigma1, Schedule, RoundConstant, Plus;
    var a, b, c, d := state.a, state.b, state.c, state.d;
    var e, f, g, h := state.e, state.f, state.g, state.h;
    var i := 0;
    while i < 64
      invariant 0 <= i <= 64
      invariant Hash(a, b, c, d, e, f, g, h) == Rounds(state, block, i)
    {
      var s1 := BigSigma1(e);
      var ch := Ch(e, f, g);
      var temp1 := Plus(Plus(Plus(Plus(h, s1), ch), RoundConstant(i)), w[i]);
      var s0 := BigSigma0(a);
      var maj := Maj(a, b, c);
      var temp2 := Plus(s0, maj);
      h := g;
      g := f;
      f := e;
      e := Plus(d, temp1);
      d := c;
      c := b;
      b := a;
      a := Plus(temp1, temp2);
      i := i + 1;
    }
    out := Hash(a, b, c, d, e, f, g, h);
  }

  class Context {
    var state: Hash
    var bitCount: nat
    const buffer: array<byte>
    var bufferSize: nat
    /** Everything handed to Update so far. */
    ghost var message: bytes

    ghost predicate Valid()
      reads this, buffer
    {
      && buffer.Length == 64 && bufferSize < 64 && bufferSize <= |message|
      && (|message| - bufferSize) % 64 == 0
      && Absorbed(state, message[..|message| - bufferSize])
      && buffer[..bufferSize] == message[|message| - bufferSize..]
      && bitCount == 8 * (|message| - bufferSize) % TWO64
    }

    constructor ()
      ensures Valid() && message == [] && fresh(buffer)
    {
      state := INITIAL;
      bitCount := 0;
      buffer := new byte[64];
      bufferSize := 0;
      message := [];
    }

    /** etb_sha256_update */
    method Update(data: bytes)
      requires Valid()
      modifies this, buffer
      ensures Valid() && message == old(message) + data
    {
      hide Compress, Absorbed;
      ghost var start := message;
      var index := 0;
      while index < |data|
        invariant 0 <= index <= |data|
        invariant Valid() && message == start + data[..index]
      {
        var room := 64 - bufferSize;
        var n := if room > |data| - index then |data| - index else room;
        assert data[..index] + data[index..index + n] == data[..index + n];
        Fill(data[index..index + n]);
        assert start + data[..index] + data[index..index + n] == start + data[..index + n];
        index := index + n;
      }
      assert data[..index] == data;
    }

    /** Copies into the buffer and compresses it once it is full (source lines 119-126). */
    method Fill(chunk: bytes)
      requires Valid() && bufferSize + |chunk| <= 64
      modifies this, buffer
      ensures Valid() && message == old(message) + chunk
    {
      hide Compress, Absorbed;
      ghost var before := message;
      ghost var whole := message[..|message| - bufferSize];
      ghost var held := buffer[..bufferSize];
      assert before == whole + held;
      CopyIn(chunk);
      message := message + chunk;
      Cut(whole, held, chunk);
      assert message == whole + held + chunk;
      ghost var rest := held + chunk;
      assert buffer[..bufferSize] == rest;
      if bufferSize == 64 {
        assert buffer[..] == rest;
        Flush(whole);
      }
    }

    /** A full buffer is compressed and emptied. */
    method Flush(ghost whole: bytes)
      requires buffer.Length == bufferSize == 64 && message == whole + buffer[..] && |whole| % 64 == 0
      requires Absorbed(state, whole) && bitCount == 8 * |whole| % TWO64
      modifies this`state, this`bitCount, this`bufferSize
      ensures Valid()
    {
      hide Compress, Absorbed;
      var block := buffer[..];
      AbsorbedMore(state, whole, block);
      OneBlockMore(|whole|, bitCount);
      assert message[..|message|] == whole + block;
      state := Transform(state, block);
      bitCount := (bitCount + 512) % TWO64;
      bufferSize := 0;
    }

    method CopyIn(chunk: bytes)
      requires buffer.Length == 64 && bufferSize + |chunk| <= 64
      modifies this`bufferSize, buffer
      ensures bufferSize == old(bufferSize) + |chunk|
      ensures buffer[..bufferSize] == old(buffer[..bufferSize]) + chunk
    {
      forall i | 0 <= i < |chunk| {
        buffer[bufferSize + i] := chunk[i];
      }
      bufferSize := bufferSize + |chunk|;
    }

    /** etb_sha256_final: whatever the split into updates, the digest is that of the whole message. */
    method Final() returns (digest: bytes)
      requires Valid()
      modifies this, buffer
      ensures digest == Digest(old(message))
    {
      hide Compress, HashBytes, BigEndian, Zeros, Padded, Absorbed, Digest;
      ghost var m := message;
      ghost var whole := m[..|m| - bufferSize];
      ghost var held := m[|m| - bufferSize..];
      assert m == whole + held;
      var totalBits := (bitCount + bufferSize * 8) % TWO64;
      assert totalBits == 8 * |m| % TWO64;
      var length := BigEndian(totalBits, 8);
      ghost var done := PadFront(m, whole, held, length);
      StoreLength(length);
      AbsorbedMore(state, done, buffer[..]);
      state := Transform(state, buffer[..]);
      digest := HashBytes(state);
      AbsorbedDigest(state, m);
    }

    /** The first padding byte and the zero bytes, with an extra block when they do not fit (source lines 135-145). */
    method PadFront(ghost m: bytes, ghost whole: bytes, ghost held: bytes, ghost length: bytes)
      returns (ghost done: bytes)
      requires buffer.Length == 64 && bufferSize < 64 && |held| == bufferSize && buffer[..bufferSize] == held
      requires m == whole + held && |whole| % 64 == 0 && length == BigEndian(8 * |m| % TWO64, 8)
      requires Absorbed(state, whole)
      modifies this`state, this`bufferSize, buffer
      ensures |done| % 64 == 0 && Absorbed(state, done)
      ensures Padded(m) == done + (buffer[..56] + length)
    {
      hide Compress, BigEndian, Zeros, Padded, Absorbed;
      buffer[bufferSize] := 0x80;
      bufferSize := bufferSize + 1;
      assert buffer[..bufferSize] == held + [0x80];
      done := whole;
      if bufferSize > 56 {
        ghost var k := 64 - bufferSize;
        ZeroFill(64);
        assert buffer[..] == held + [0x80] + Zeros(k);
        AbsorbedMore(state, whole, buffer[..]);
        state := Transform(state, buffer[..]);
        done := whole + buffer[..];
        bufferSize := 0;
        ZeroFill(56);
        assert buffer[..56] == Zeros(56);
        PadLong(m, whole, held, k, length);
      } else {
        ghost var k := 56 - bufferSize;
        ZeroFill(56);
        PadShort(m, whole, held, k, length);
      }
    }

    /** The loop over the eight length bytes. */
    method StoreLength(length: bytes)
      requires buffer.Length == 64 && |length| == 8
      modifies buffer
      ensures buffer[..] == old(buffer[..56]) + length
    {
      forall i | 0 <= i < 8 {
        buffer[56 + i] := length[i];
      }
    }

    /** Zero bytes up to a position (source lines 137-139 and 143-145). */
    method ZeroFill(limit: nat)
      requires buffer.Length == 64 && bufferSize <= limit <= 64
      modifies this`bufferSize, buffer
      ensures bufferSize == limit
      ensures buffer[..limit] == old(buffer[..bufferSize]) + Zeros(limit - old(bufferSize))
    {
      while bufferSize < limit
        invariant old(bufferSize) <= bufferSize <= limit
        invariant buffer[..bufferSize] == old(buffer[..bufferSize]) + Zeros(bufferSize - old(bufferSize))
      {
        buffer[bufferSize] := 0;
        bufferSize := bufferSize + 1;
      }
    }
  }

  lemma OneBlockMore(n: nat, bits: nat)
    requires n % 64 == 0 && bits == 8 * n % TWO64
    ensures (n + 64) % 64 == 0 && (bits + 512) % TWO64 == 8 * (n + 64) % TWO64
  {
  }

  lemma Cut(whole: bytes, held: bytes, chunk: bytes)
    ensures var m := whole + held + chunk;
      && m == whole + (held + chunk)
      && m[..|m| - |held| - |chunk|] == whole && m[|m| - |held| - |chunk|..] == held + chunk
  {
  }

  lemma Regroup(a: bytes, b: bytes, c: bytes, d: bytes, e: bytes)
    ensures a + b + c + d + e == a + (b + c + d + e)
  {
  }

  lemma PadShort(m: bytes, whole: bytes, held: bytes, k: nat, length: bytes)
    requires m == whole + held && |whole| % 64 == 0 && |held| + 1 + k == 56
    requires length == BigEndian(8 * |m| % TWO64, 8)
    ensures Padded(m) == whole + (held + [0x80] + Zeros(k) + length)
  {
    hide BigEndian, Zeros, ZeroCount;
    ShortCount(|whole|, |held|, k);
    Regroup(whole, held, [0x80], Zeros(k), length);
  }

  lemma PadLong(m: bytes, whole: bytes, held: bytes, k: nat, length: bytes)
    requires m == whole + held && |whole| % 64 == 0 && |held| + 1 + k == 64 && k < 8
    requires length == BigEndian(8 * |m| % TWO64, 8)
    ensures Padded(m) == whole + (held + [0x80] + Zeros(k)) + (Zeros(56) + length)
  {
    hide BigEndian, Zeros, ZeroCount;
    LongCount(|whole|, |held|, k);
    Regroup(whole, held, [0x80], Zeros(k + 56), length);
    ZerosSplit(whole, held + [0x80], k, length);
  }

  lemma LongCount(w: nat, h: nat, k: nat)
    requires w % 64 == 0 && h + 1 + k == 64 && k < 8
    ensures ZeroCount(w + h) == k + 56
  {
    assert (w + h) % 64 == h;
  }

  lemma ShortCount(w: nat, h: nat, k: nat)
    requires w % 64 == 0 && h + 1 + k == 56
    ensures ZeroCount(w + h) == k
  {
    assert (w + h) % 64 == h;
  }

  lemma ZerosSplit(a: bytes, b: bytes, k: nat, length: bytes)
    ensures a + (b + Zeros(k + 56) + length) == a + (b + Zeros(k)) + (Zeros(56) + length)
  {
    assert Zeros(k) + Zeros(56) == Zeros(k + 56);
  }

  /** The hexadecimal loop (source lines 174-177). */
  method HexOf(digest: bytes) returns (hex: string)
    ensures hex == Hex(digest)
  {
    hide HexDigit;
    hex := "";
    var i := 0;
    while i < |digest|
      invariant 0 <= i <= |digest|
      invariant hex + Hex(digest[i..]) == Hex(digest)
    {
      assert digest[i..][1..] == digest[i + 1..];
      hex := hex + [HexDigit(digest[i] / 16), HexDigit(digest[i] % 16)];
      i := i + 1;
    }
    assert hex + [] == hex;
  }

  /** etb_sha256_hex */
  method Sha256Hex(data: bytes) returns (hex: string)
    ensures hex == Hex(Digest(data))
  {
    hide Digest, Context.Valid;
    var ctx := new Context();
    ctx.Update(data);
    assert [] + data == data;
    var digest := ctx.Final();
    hex := HexOf(digest);
  }

  /** The first `n` pieces put together. */
  function Joined(pieces: seq<bytes>, n: nat): bytes
    requires n <= |pieces|
  {
    if n == 0 then [] else Joined(pieces, n - 1) + pieces[n - 1]
  }

  /** One digest for every way of cutting a message into pieces. */
  method DigestOfPieces(pieces: seq<bytes>) returns (digest: bytes)
    ensures digest == Digest(Joined(pieces, |pieces|))
  {
    hide Digest, Context.Valid;
    var ctx := new Context();
    UpdateAll(ctx, pieces);
    assert [] + Joined(pieces, |pieces|) == Joined(pieces, |pieces|);
    digest := ctx.Final();
  }

  method UpdateAll(ctx: Context, pieces: seq<bytes>)
    requires ctx.Valid()
    modifies ctx, ctx.buffer
    ensures ctx.Valid() && ctx.message == old(ctx.message) + Joined(pieces, |pieces|)
  {
    hide *;
    var i := 0;
    JoinedNone(pieces);
    assert ctx.message + [] == ctx.message;
    while i < |pieces|
      invariant 0 <= i <= |pieces|
      invariant ctx.Valid() && ctx.message == old(ctx.message) + Joined(pieces, i)
    {
      JoinedMore(pieces, i);
      ctx.Update(pieces[i]);
      assert old(ctx.message) + Joined(pieces, i) + pieces[i] == old(ctx.message) + (Joined(pieces, i) + pieces[i]);
      i := i + 1;
    }
  }

  lemma JoinedNone(pieces: seq<bytes>)
    ensures Joined(pieces, 0) == []
  {
  }

  lemma JoinedMore(pieces: seq<bytes>, n: nat)
    requires n < |pieces|
    ensures Joined(pieces, n + 1) == Joined(pieces, n) + pieces[n]
  {
  }
}
