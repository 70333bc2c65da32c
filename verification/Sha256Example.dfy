/** The digest of one message, worked out as the examples to FIPS 180-4 do it. */
module Sha256Example {
  import opened Cbor
  import opened Sha256

  /** The message "abc" in ASCII. */
  function Abc(): bytes {
    [0x61, 0x62, 0x63]
  }

  /** Padding makes one block of it: the message, a one bit, zeros, and the length of 24 bits. */
  lemma AbcBlock()
    ensures var b := Padded(Abc());
      && |b| == 64 && b[..4] == [0x61, 0x62, 0x63, 0x80] && (forall i :: 4 <= i < 63 ==> b[i] == 0) && b[63] == 0x18
  {
    hide BigEndian, Zeros;
    var b := Padded(Abc());
    assert ZeroCount(3) == 52;
    LengthBytes();
    FiftyTwoZeros();
    assert b == Abc() + [0x80] + Zeros(52) + [0, 0, 0, 0, 0, 0, 0, 0x18];
  }

  lemma FiftyTwoZeros()
    ensures forall i :: 0 <= i < 52 ==> Zeros(52)[i] == 0
  {
  }

  lemma LengthBytes()
    ensures BigEndian(24, 8) == [0, 0, 0, 0, 0, 0, 0, 0x18]
  {
    assert BigEndian(0, 1) == [0];
    assert BigEndian(0, 2) == [0, 0];
    assert BigEndian(0, 3) == [0, 0, 0];
    assert BigEndian(0, 4) == [0, 0, 0, 0];
    assert BigEndian(0, 5) == [0, 0, 0, 0, 0];
    assert BigEndian(0, 6) == [0, 0, 0, 0, 0, 0];
    assert BigEndian(0, 7) == [0, 0, 0, 0, 0, 0, 0];
  }

  lemma LiteralWords()
    ensures Word(0x61, 0x62, 0x63, 0x80) == 0x61626380 && Word(0, 0, 0, 0) == 0 && Word(0, 0, 0, 0x18) == 0x18
  {
  }

  predicate IsAbc(b: bytes) {
    IsBlock(b) && b == Padded(Abc())
  }

  // ---------- The schedule ----------

  /** Eight words of the schedule, from word `t` on. */
  predicate Words(b: bytes, t: nat, p: word, q: word, r: word, s: word, u: word, v: word, w: word, x: word)
    requires IsBlock(b)
  {
    && Schedule(b, t) == p && Schedule(b, t + 1) == q && Schedule(b, t + 2) == r && Schedule(b, t + 3) == s
    && Schedule(b, t + 4) == u && Schedule(b, t + 5) == v && Schedule(b, t + 6) == w && Schedule(b, t + 7) == x
  }

  ghost method FirstWords(b: bytes)
    requires IsAbc(b)
    ensures Words(b, 0, 0x61626380, 0x00000000, 0x00000000, 0x00000000,
                  0x00000000, 0x00000000, 0x00000000, 0x00000000)
    ensures Words(b, 8, 0x00000000, 0x00000000, 0x00000000, 0x00000000,
                  0x00000000, 0x00000000, 0x00000000, 0x00000018)
  {
    hide Padded, Word;
    AbcBlock();
    LiteralWords();
    assert b[..4][0] == b[0] && b[..4][1] == b[1] && b[..4][2] == b[2] && b[..4][3] == b[3];
    assert forall t: nat :: t < 16 ==> Schedule(b, t) == Word(b[4 * t], b[4 * t + 1], b[4 * t + 2], b[4 * t + 3]);
  }

  ghost method Extend(b: bytes, t: nat, w16: word, w15: word, w7: word, w2: word, w: word)
    requires IsBlock(b) && t >= 16 && Schedule(b, t - 16) == w16 && Schedule(b, t - 15) == w15
    requires Schedule(b, t - 7) == w7 && Schedule(b, t - 2) == w2
    requires w == Plus(Plus(Plus(w16, SmallSigma0(w15)), w7), SmallSigma1(w2))
    ensures Schedule(b, t) == w
  {
    hide Plus, SmallSigma0, SmallSigma1, WordAt;
  }

  ghost method Words16(b: bytes)
    requires IsAbc(b)
    ensures Words(b, 8, 0x00000000, 0x00000000, 0x00000000, 0x00000000,
                  0x00000000, 0x00000000, 0x00000000, 0x00000018)
    ensures Words(b, 16, 0x61626380, 0x000f0000, 0x7da86405, 0x600003c6,
                  0x3e9d7b78, 0x0183fc00, 0x12dcbfdb, 0xe2e2c38e)
  {
    hide Schedule, Padded;
    FirstWords(b);
    Extend(b, 16, 0x61626380, 0x00000000, 0x00000000, 0x00000000, 0x61626380);
    Extend(b, 17, 0x00000000, 0x00000000, 0x00000000, 0x00000018, 0x000f0000);
    Extend(b, 18, 0x00000000, 0x00000000, 0x00000000, 0x61626380, 0x7da86405);
    Extend(b, 19, 0x00000000, 0x00000000, 0x00000000, 0x000f0000, 0x600003c6);
    Extend(b, 20, 0x00000000, 0x00000000, 0x00000000, 0x7da86405, 0x3e9d7b78);
    Extend(b, 21, 0x00000000, 0x00000000, 0x00000000, 0x600003c6, 0x0183fc00);
    Extend(b, 22, 0x00000000, 0x00000000, 0x00000018, 0x3e9d7b78, 0x12dcbfdb);
    Extend(b, 23, 0x00000000, 0x00000000, 0x61626380, 0x0183fc00, 0xe2e2c38e);
  }

  ghost method Words24(b: bytes)
    requires IsAbc(b)
    ensures Words(b, 16, 0x61626380, 0x000f0000, 0x7da86405, 0x600003c6,
                  0x3e9d7b78, 0x0183fc00, 0x12dcbfdb, 0xe2e2c38e)
    ensures Words(b, 24, 0xc8215c1a, 0xb73679a2, 0xe5bc3909, 0x32663c5b,
                  0x9d209d67, 0xec8726cb, 0x702138a4, 0xd3b7973b)
  {
    hide Schedule, Padded;
    Words16(b);
    Extend(b, 24, 0x00000000, 0x00000000, 0x000f0000, 0x12dcbfdb, 0xc8215c1a);
    Extend(b, 25, 0x00000000, 0x00000000, 0x7da86405, 0xe2e2c38e, 0xb73679a2);
    Extend(b, 26, 0x00000000, 0x00000000, 0x600003c6, 0xc8215c1a, 0xe5bc3909);
    Extend(b, 27, 0x00000000, 0x00000000, 0x3e9d7b78, 0xb73679a2, 0x32663c5b);
    Extend(b, 28, 0x00000000, 0x00000000, 0x0183fc00, 0xe5bc3909, 0x9d209d67);
    Extend(b, 29, 0x00000000, 0x00000000, 0x12dcbfdb, 0x32663c5b, 0xec8726cb);
    Extend(b, 30, 0x00000000, 0x00000018, 0xe2e2c38e, 0x9d209d67, 0x702138a4);
    Extend(b, 31, 0x00000018, 0x61626380, 0xc8215c1a, 0xec8726cb, 0xd3b7973b);
  }

  ghost method Words32(b: bytes)
    requires IsAbc(b)
    ensures Words(b, 24, 0xc8215c1a, 0xb73679a2, 0xe5bc3909, 0x32663c5b,
                  0x9d209d67, 0xec8726cb, 0x702138a4, 0xd3b7973b)
    ensures Words(b, 32, 0x93f5997f, 0x3b68ba73, 0xaff4ffc1, 0xf10a5c62,
                  0x0a8b3996, 0x72af830a, 0x9409e33e, 0x24641522)
  {
    hide Schedule, Padded;
    Words24(b);
    Extend(b, 32, 0x61626380, 0x000f0000, 0xb73679a2, 0x702138a4, 0x93f5997f);
    Extend(b, 33, 0x000f0000, 0x7da86405, 0xe5bc3909, 0xd3b7973b, 0x3b68ba73);
    Extend(b, 34, 0x7da86405, 0x600003c6, 0x32663c5b, 0x93f5997f, 0xaff4ffc1);
    Extend(b, 35, 0x600003c6, 0x3e9d7b78, 0x9d209d67, 0x3b68ba73, 0xf10a5c62);
    Extend(b, 36, 0x3e9d7b78, 0x0183fc00, 0xec8726cb, 0xaff4ffc1, 0x0a8b3996);
    Extend(b, 37, 0x0183fc00, 0x12dcbfdb, 0x702138a4, 0xf10a5c62, 0x72af830a);
    Extend(b, 38, 0x12dcbfdb, 0xe2e2c38e, 0xd3b7973b, 0x0a8b3996, 0x9409e33e);
    Extend(b, 39, 0xe2e2c38e, 0xc8215c1a, 0x93f5997f, 0x72af830a, 0x24641522);
  }

  ghost method Words40(b: bytes)
    requires IsAbc(b)
    ensures Words(b, 32, 0x93f5997f, 0x3b68ba73, 0xaff4ffc1, 0xf10a5c62,
                  0x0a8b3996, 0x72af830a, 0x9409e33e, 0x24641522)
    ensures Words(b, 40, 0x9f47bf94, 0xf0a64f5a, 0x3e246a79, 0x27333ba3,
                  0x0c4763f2, 0x840abf27, 0x7a290d5d, 0x065c43da)
  {
    hide Schedule, Padded;
    Words32(b);
    Extend(b, 40, 0xc8215c1a, 0xb73679a2, 0x3b68ba73, 0x9409e33e, 0x9f47bf94);
    Extend(b, 41, 0xb73679a2, 0xe5bc3909, 0xaff4ffc1, 0x24641522, 0xf0a64f5a);
    Extend(b, 42, 0xe5bc3909, 0x32663c5b, 0xf10a5c62, 0x9f47bf94, 0x3e246a79);
    Extend(b, 43, 0x32663c5b, 0x9d209d67, 0x0a8b3996, 0xf0a64f5a, 0x27333ba3);
    Extend(b, 44, 0x9d209d67, 0xec8726cb, 0x72af830a, 0x3e246a79, 0x0c4763f2);
    Extend(b, 45, 0xec8726cb, 0x702138a4, 0x9409e33e, 0x27333ba3, 0x840abf27);
    Extend(b, 46, 0x702138a4, 0xd3b7973b, 0x24641522, 0x0c4763f2, 0x7a290d5d);
    Extend(b, 47, 0xd3b7973b, 0x93f5997f, 0x9f47bf94, 0x840abf27, 0x065c43da);
  }

  ghost method Words48(b: bytes)
    requires IsAbc(b)
    ensures Words(b, 40, 0x9f47bf94, 0xf0a64f5a, 0x3e246a79, 0x27333ba3,
                  0x0c4763f2, 0x840abf27, 0x7a290d5d, 0x065c43da)
    ensures Words(b, 48, 0xfb3e89cb, 0xcc7617db, 0xb9e66c34, 0xa9993667,
                  0x84badedd, 0xc21462bc, 0x1487472c, 0xb20f7a99)
  {
    hide Schedule, Padded;
    Words40(b);
    Extend(b, 48, 0x93f5997f, 0x3b68ba73, 0xf0a64f5a, 0x7a290d5d, 0xfb3e89cb);
    Extend(b, 49, 0x3b68ba73, 0xaff4ffc1, 0x3e246a79, 0x065c43da, 0xcc7617db);
    Extend(b, 50, 0xaff4ffc1, 0xf10a5c62, 0x27333ba3, 0xfb3e89cb, 0xb9e66c34);
    Extend(b, 51, 0xf10a5c62, 0x0a8b3996, 0x0c4763f2, 0xcc7617db, 0xa9993667);
    Extend(b, 52, 0x0a8b3996, 0x72af830a, 0x840abf27, 0xb9e66c34, 0x84badedd);
    Extend(b, 53, 0x72af830a, 0x9409e33e, 0x7a290d5d, 0xa9993667, 0xc21462bc);
    Extend(b, 54, 0x9409e33e, 0x24641522, 0x065c43da, 0x84badedd, 0x1487472c);
    Extend(b, 55, 0x24641522, 0x9f47bf94, 0xfb3e89cb, 0xc21462bc, 0xb20f7a99);
  }

  ghost method Words56(b: bytes)
    requires IsAbc(b)
    ensures Words(b, 48, 0xfb3e89cb, 0xcc7617db, 0xb9e66c34, 0xa9993667,
                  0x84badedd, 0xc21462bc, 0x1487472c, 0xb20f7a99)
    ensures Words(b, 56, 0xef57b9cd, 0xebe6b238, 0x9fe3095e, 0x78bc8d4b,
                  0xa43fcf15, 0x668b2ff8, 0xeeaba2cc, 0x12b1edeb)
  {
    hide Schedule, Padded;
    Words48(b);
    Extend(b, 56, 0x9f47bf94, 0xf0a64f5a, 0xcc7617db, 0x1487472c, 0xef57b9cd);
    Extend(b, 57, 0xf0a64f5a, 0x3e246a79, 0xb9e66c34, 0xb20f7a99, 0xebe6b238);
    Extend(b, 58, 0x3e246a79, 0x27333ba3, 0xa9993667, 0xef57b9cd, 0x9fe3095e);
    Extend(b, 59, 0x27333ba3, 0x0c4763f2, 0x84badedd, 0xebe6b238, 0x78bc8d4b);
    Extend(b, 60, 0x0c4763f2, 0x840abf27, 0xc21462bc, 0x9fe3095e, 0xa43fcf15);
    Extend(b, 61, 0x840abf27, 0x7a290d5d, 0x1487472c, 0x78bc8d4b, 0x668b2ff8);
    Extend(b, 62, 0x7a290d5d, 0x065c43da, 0xb20f7a99, 0xa43fcf15, 0xeeaba2cc);
    Extend(b, 63, 0x065c43da, 0xfb3e89cb, 0xef57b9cd, 0x668b2ff8, 0x12b1edeb);
  }

  // ---------- The round constants ----------

  /** Eight of them, from round `t` on. */
  predicate Keys(t: nat, p: word, q: word, r: word, s: word, u: word, v: word, w: word, x: word)
    requires t + 8 <= 64
  {
    && RoundConstant(t) == p && RoundConstant(t + 1) == q && RoundConstant(t + 2) == r && RoundConstant(t + 3) == s
    && RoundConstant(t + 4) == u && RoundConstant(t + 5) == v && RoundConstant(t + 6) == w && RoundConstant(t + 7) == x
  }

  ghost method Keys0()
    ensures Keys(0, 0x428a2f98, 0x71374491, 0xb5c0fbcf, 0xe9b5dba5,
                 0x3956c25b, 0x59f111f1, 0x923f82a4, 0xab1c5ed5)
    ensures Keys(8, 0xd807aa98, 0x12835b01, 0x243185be, 0x550c7dc3,
                 0x72be5d74, 0x80deb1fe, 0x9bdc06a7, 0xc19bf174)
  {
    hide Bits;
    Literals0();
  }

  lemma Literals0()
    ensures Bits(0x428a2f98) == 0x428a2f98 && Bits(0x71374491) == 0x71374491
    ensures Bits(0xb5c0fbcf) == 0xb5c0fbcf && Bits(0xe9b5dba5) == 0xe9b5dba5
    ensures Bits(0x3956c25b) == 0x3956c25b && Bits(0x59f111f1) == 0x59f111f1
    ensures Bits(0x923f82a4) == 0x923f82a4 && Bits(0xab1c5ed5) == 0xab1c5ed5
    ensures Bits(0xd807aa98) == 0xd807aa98 && Bits(0x12835b01) == 0x12835b01
    ensures Bits(0x243185be) == 0x243185be && Bits(0x550c7dc3) == 0x550c7dc3
    ensures Bits(0x72be5d74) == 0x72be5d74 && Bits(0x80deb1fe) == 0x80deb1fe
    ensures Bits(0x9bdc06a7) == 0x9bdc06a7 && Bits(0xc19bf174) == 0xc19bf174
  {
  }

  ghost method Keys16()
    ensures Keys(16, 0xe49b69c1, 0xefbe4786, 0x0fc19dc6, 0x240ca1cc,
                 0x2de92c6f, 0x4a7484aa, 0x5cb0a9dc, 0x76f988da)
    ensures Keys(24, 0x983e5152, 0xa831c66d, 0xb00327c8, 0xbf597fc7,
                 0xc6e00bf3, 0xd5a79147, 0x06ca6351, 0x14292967)
  {
    hide Bits;
    Literals16();
  }

  lemma Literals16()
    ensures Bits(0xe49b69c1) == 0xe49b69c1 && Bits(0xefbe4786) == 0xefbe4786
    ensures Bits(0x0fc19dc6) == 0x0fc19dc6 && Bits(0x240ca1cc) == 0x240ca1cc
    ensures Bits(0x2de92c6f) == 0x2de92c6f && Bits(0x4a7484aa) == 0x4a7484aa
    ensures Bits(0x5cb0a9dc) == 0x5cb0a9dc && Bits(0x76f988da) == 0x76f988da
    ensures Bits(0x983e5152) == 0x983e5152 && Bits(0xa831c66d) == 0xa831c66d
    ensures Bits(0xb00327c8) == 0xb00327c8 && Bits(0xbf597fc7) == 0xbf597fc7
    ensures Bits(0xc6e00bf3) == 0xc6e00bf3 && Bits(0xd5a79147) == 0xd5a79147
    ensures Bits(0x06ca6351) == 0x06ca6351 && Bits(0x14292967) == 0x14292967
  {
  }

  ghost method Keys32()
    ensures Keys(32, 0x27b70a85, 0x2e1b2138, 0x4d2c6dfc, 0x53380d13,
                 0x650a7354, 0x766a0abb, 0x81c2c92e, 0x92722c85)
    ensures Keys(40, 0xa2bfe8a1, 0xa81a664b, 0xc24b8b70, 0xc76c51a3,
                 0xd192e819, 0xd6990624, 0xf40e3585, 0x106aa070)
  {
    hide Bits;
    Literals32();
  }

  lemma Literals32()
    ensures Bits(0x27b70a85) == 0x27b70a85 && Bits(0x2e1b2138) == 0x2e1b2138
    ensures Bits(0x4d2c6dfc) == 0x4d2c6dfc && Bits(0x53380d13) == 0x53380d13
    ensures Bits(0x650a7354) == 0x650a7354 && Bits(0x766a0abb) == 0x766a0abb
    ensures Bits(0x81c2c92e) == 0x81c2c92e && Bits(0x92722c85) == 0x92722c85
    ensures Bits(0xa2bfe8a1) == 0xa2bfe8a1 && Bits(0xa81a664b) == 0xa81a664b
    ensures Bits(0xc24b8b70) == 0xc24b8b70 && Bits(0xc76c51a3) == 0xc76c51a3
    ensures Bits(0xd192e819) == 0xd192e819 && Bits(0xd6990624) == 0xd6990624
    ensures Bits(0xf40e3585) == 0xf40e3585 && Bits(0x106aa070) == 0x106aa070
  {
  }

  ghost method Keys48()
    ensures Keys(48, 0x19a4c116, 0x1e376c08, 0x2748774c, 0x34b0bcb5,
                 0x391c0cb3, 0x4ed8aa4a, 0x5b9cca4f, 0x682e6ff3)
    ensures Keys(56, 0x748f82ee, 0x78a5636f, 0x84c87814, 0x8cc70208,
                 0x90befffa, 0xa4506ceb, 0xbef9a3f7, 0xc67178f2)
  {
    hide Bits;
    Literals48();
  }

  lemma Literals48()
    ensures Bits(0x19a4c116) == 0x19a4c116 && Bits(0x1e376c08) == 0x1e376c08
    ensures Bits(0x2748774c) == 0x2748774c && Bits(0x34b0bcb5) == 0x34b0bcb5
    ensures Bits(0x391c0cb3) == 0x391c0cb3 && Bits(0x4ed8aa4a) == 0x4ed8aa4a
    ensures Bits(0x5b9cca4f) == 0x5b9cca4f && Bits(0x682e6ff3) == 0x682e6ff3
    ensures Bits(0x748f82ee) == 0x748f82ee && Bits(0x78a5636f) == 0x78a5636f
    ensures Bits(0x84c87814) == 0x84c87814 && Bits(0x8cc70208) == 0x8cc70208
    ensures Bits(0x90befffa) == 0x90befffa && Bits(0xa4506ceb) == 0xa4506ceb
    ensures Bits(0xbef9a3f7) == 0xbef9a3f7 && Bits(0xc67178f2) == 0xc67178f2
  {
  }

  // ---------- The rounds ----------

  /** One round on known words: only the first and the fifth are new. */
  ghost method Turn(b: bytes, t: nat, s: Hash, k: word, w: word, a: word, e: word) returns (r: Hash)
    requires IsBlock(b) && t < 64 && Rounds(INITIAL, b, t) == s && Schedule(b, t) == w && RoundConstant(t) == k
    requires Round(s, k, w) == Hash(a, s.a, s.b, s.c, e, s.e, s.f, s.g)
    ensures r == Hash(a, s.a, s.b, s.c, e, s.e, s.f, s.g) && Rounds(INITIAL, b, t + 1) == r
  {
    hide Round, Schedule, RoundConstant;
    r := Hash(a, s.a, s.b, s.c, e, s.e, s.f, s.g);
  }

  lemma NoTurns(b: bytes)
    requires IsBlock(b)
    ensures Rounds(INITIAL, b, 0) == INITIAL
  {
  }

  ghost method Turns0(b: bytes) returns (s: Hash)
    requires IsAbc(b)
    ensures s == Rounds(INITIAL, b, 8) ==
      Hash(0x85a07b5f, 0xe5030380, 0x2b4209f5, 0x04409a6a,
           0x0c657a79, 0x9b27a401, 0x714260ad, 0x43ada245)
  {
    hide Schedule, Rounds, RoundConstant, Padded;
    NoTurns(b);
    s := INITIAL;
    FirstWords(b);
    Keys0();
    s := Turn(b, 0, s, 0x428a2f98, 0x61626380, 0x5d6aebcd, 0xfa2a4622);
    s := Turn(b, 1, s, 0x71374491, 0x00000000, 0x5a6ad9ad, 0x78ce7989);
    s := Turn(b, 2, s, 0xb5c0fbcf, 0x00000000, 0xc8c347a7, 0xf92939eb);
    s := Turn(b, 3, s, 0xe9b5dba5, 0x00000000, 0xd550f666, 0x24e00850);
    s := Turn(b, 4, s, 0x3956c25b, 0x00000000, 0x04409a6a, 0x43ada245);
    s := Turn(b, 5, s, 0x59f111f1, 0x00000000, 0x2b4209f5, 0x714260ad);
    s := Turn(b, 6, s, 0x923f82a4, 0x00000000, 0xe5030380, 0x9b27a401);
    s := Turn(b, 7, s, 0xab1c5ed5, 0x00000000, 0x85a07b5f, 0x0c657a79);
  }

  ghost method Turns8(b: bytes) returns (s: Hash)
    requires IsAbc(b)
    ensures s == Rounds(INITIAL, b, 16) ==
      Hash(0xb0fa238e, 0xc0645fde, 0xd932eb16, 0x87912990,
           0x07590dcd, 0x0b92f20c, 0x745a48de, 0x1e578218)
  {
    hide Schedule, Rounds, RoundConstant, Padded;
    s := Turns0(b);
    Words16(b);
    Keys0();
    s := Turn(b, 8, s, 0xd807aa98, 0x00000000, 0x8e04ecb9, 0x32ca2d8c);
    s := Turn(b, 9, s, 0x12835b01, 0x00000000, 0x8c87346b, 0x1cc92596);
    s := Turn(b, 10, s, 0x243185be, 0x00000000, 0x4798a3f4, 0x436b23e8);
    s := Turn(b, 11, s, 0x550c7dc3, 0x00000000, 0xf71fc5a9, 0x816fd6e9);
    s := Turn(b, 12, s, 0x72be5d74, 0x00000000, 0x87912990, 0x1e578218);
    s := Turn(b, 13, s, 0x80deb1fe, 0x00000000, 0xd932eb16, 0x745a48de);
    s := Turn(b, 14, s, 0x9bdc06a7, 0x00000000, 0xc0645fde, 0x0b92f20c);
    s := Turn(b, 15, s, 0xc19bf174, 0x00000018, 0xb0fa238e, 0x07590dcd);
  }

  ghost method Turns16(b: bytes) returns (s: Hash)
    requires IsAbc(b)
    ensures s == Rounds(INITIAL, b, 24) ==
      Hash(0xc5d53d8d, 0xa7a3623f, 0xc2606d6d, 0x9dc68b63,
           0xaa47c347, 0x49f5114a, 0xe1257970, 0x8ada8930)
  {
    hide Schedule, Rounds, RoundConstant, Padded;
    s := Turns8(b);
    Words16(b);
    Keys16();
    s := Turn(b, 16, s, 0xe49b69c1, 0x61626380, 0x21da9a9b, 0x8034229c);
    s := Turn(b, 17, s, 0xefbe4786, 0x000f0000, 0xc2fbd9d1, 0x846ee454);
    s := Turn(b, 18, s, 0x0fc19dc6, 0x7da86405, 0xfe777bbf, 0xcc899961);
    s := Turn(b, 19, s, 0x240ca1cc, 0x600003c6, 0xe1f20c33, 0xb0638179);
    s := Turn(b, 20, s, 0x2de92c6f, 0x3e9d7b78, 0x9dc68b63, 0x8ada8930);
    s := Turn(b, 21, s, 0x4a7484aa, 0x0183fc00, 0xc2606d6d, 0xe1257970);
    s := Turn(b, 22, s, 0x5cb0a9dc, 0x12dcbfdb, 0xa7a3623f, 0x49f5114a);
    s := Turn(b, 23, s, 0x76f988da, 0xe2e2c38e, 0xc5d53d8d, 0xaa47c347);
  }

  ghost method Turns24(b: bytes) returns (s: Hash)
    requires IsAbc(b)
    ensures s == Rounds(INITIAL, b, 32) ==
      Hash(0x73b33bf5, 0xea992a22, 0xa0060b30, 0x363482c9,
           0xba591112, 0x0109ab3a, 0xade79437, 0x6112a3b7)
  {
    hide Schedule, Rounds, RoundConstant, Padded;
    s := Turns16(b);
    Words24(b);
    Keys16();
    s := Turn(b, 24, s, 0x983e5152, 0xc8215c1a, 0x1c2c2838, 0x2823ef91);
    s := Turn(b, 25, s, 0xa831c66d, 0xb73679a2, 0xcde8037d, 0x14383d8e);
    s := Turn(b, 26, s, 0xb00327c8, 0xe5bc3909, 0xb62ec4bc, 0xc74c6516);
    s := Turn(b, 27, s, 0xbf597fc7, 0x32663c5b, 0x77d37528, 0xedffbff8);
    s := Turn(b, 28, s, 0xc6e00bf3, 0x9d209d67, 0x363482c9, 0x6112a3b7);
    s := Turn(b, 29, s, 0xd5a79147, 0xec8726cb, 0xa0060b30, 0xade79437);
    s := Turn(b, 30, s, 0x06ca6351, 0x702138a4, 0xea992a22, 0x0109ab3a);
    s := Turn(b, 31, s, 0x14292967, 0xd3b7973b, 0x73b33bf5, 0xba591112);
  }

  ghost method Turns32(b: bytes) returns (s: Hash)
    requires IsAbc(b)
    ensures s == Rounds(INITIAL, b, 40) ==
      Hash(0x79ea687a, 0x6dc57a8a, 0x34df1604, 0x41a65cb1,
           0x1efbc0a0, 0xf0781bc8, 0xa507a53d, 0x0772a26b)
  {
    hide Schedule, Rounds, RoundConstant, Padded;
    s := Turns24(b);
    Words32(b);
    Keys32();
    s := Turn(b, 32, s, 0x27b70a85, 0x93f5997f, 0x98e12507, 0x9cd9f5f6);
    s := Turn(b, 33, s, 0x2e1b2138, 0x3b68ba73, 0xfe604df5, 0x59249dd3);
    s := Turn(b, 34, s, 0x4d2c6dfc, 0xaff4ffc1, 0xa9a7738c, 0x085f3833);
    s := Turn(b, 35, s, 0x53380d13, 0xf10a5c62, 0x65a0cfe4, 0xf4b002d6);
    s := Turn(b, 36, s, 0x650a7354, 0x0a8b3996, 0x41a65cb1, 0x0772a26b);
    s := Turn(b, 37, s, 0x766a0abb, 0x72af830a, 0x34df1604, 0xa507a53d);
    s := Turn(b, 38, s, 0x81c2c92e, 0x9409e33e, 0x6dc57a8a, 0xf0781bc8);
    s := Turn(b, 39, s, 0x92722c85, 0x24641522, 0x79ea687a, 0x1efbc0a0);
  }

  ghost method Turns40(b: bytes) returns (s: Hash)
    requires IsAbc(b)
    ensures s == Rounds(INITIAL, b, 48) ==
      Hash(0x4172328d, 0xa14c14b0, 0x72ab4b91, 0x26628815,
           0xfecf0bc6, 0xd57b94a9, 0xb7755da1, 0xa80f11f0)
  {
    hide Schedule, Rounds, RoundConstant, Padded;
    s := Turns32(b);
    Words40(b);
    Keys32();
    s := Turn(b, 40, s, 0xa2bfe8a1, 0x9f47bf94, 0xd6670766, 0x26352d63);
    s := Turn(b, 41, s, 0xa81a664b, 0xf0a64f5a, 0xdf46652f, 0x838b2711);
    s := Turn(b, 42, s, 0xc24b8b70, 0x3e246a79, 0x17aa0dfe, 0xdecd4715);
    s := Turn(b, 43, s, 0xc76c51a3, 0x27333ba3, 0x9d4baf93, 0xfda24c2e);
    s := Turn(b, 44, s, 0xd192e819, 0x0c4763f2, 0x26628815, 0xa80f11f0);
    s := Turn(b, 45, s, 0xd6990624, 0x840abf27, 0x72ab4b91, 0xb7755da1);
    s := Turn(b, 46, s, 0xf40e3585, 0x7a290d5d, 0xa14c14b0, 0xd57b94a9);
    s := Turn(b, 47, s, 0x106aa070, 0x065c43da, 0x4172328d, 0xfecf0bc6);
  }

  ghost method Turns48(b: bytes) returns (s: Hash)
    requires IsAbc(b)
    ensures s == Rounds(INITIAL, b, 56) ==
      Hash(0x38cc9913, 0x3ec45cdb, 0xf5702fdb, 0x101fd28f,
           0x54cb266b, 0xe50e1b4f, 0x9f4787c3, 0x529e7d00)
  {
    hide Schedule, Rounds, RoundConstant, Padded;
    s := Turns40(b);
    Words48(b);
    Keys48();
    s := Turn(b, 48, s, 0x19a4c116, 0xfb3e89cb, 0x05757ceb, 0xbd714038);
    s := Turn(b, 49, s, 0x1e376c08, 0xcc7617db, 0xf11bfaa8, 0x6e5c390c);
    s := Turn(b, 50, s, 0x2748774c, 0xb9e66c34, 0x7a0508a1, 0x52f1ccf7);
    s := Turn(b, 51, s, 0x34b0bcb5, 0xa9993667, 0x886e7a22, 0x49231c1e);
    s := Turn(b, 52, s, 0x391c0cb3, 0x84badedd, 0x101fd28f, 0x529e7d00);
    s := Turn(b, 53, s, 0x4ed8aa4a, 0xc21462bc, 0xf5702fdb, 0x9f4787c3);
    s := Turn(b, 54, s, 0x5b9cca4f, 0x1487472c, 0x3ec45cdb, 0xe50e1b4f);
    s := Turn(b, 55, s, 0x682e6ff3, 0xb20f7a99, 0x38cc9913, 0x54cb266b);
  }

  ghost method Turns56(b: bytes) returns (s: Hash)
    requires IsAbc(b)
    ensures s == Rounds(INITIAL, b, 64) ==
      Hash(0x506e3058, 0xd39a2165, 0x04d24d6c, 0xb85e2ce9,
           0x5ef50f24, 0xfb121210, 0x948d25b6, 0x961f4894)
  {
    hide Schedule, Rounds, RoundConstant, Padded;
    s := Turns48(b);
    Words56(b);
    Keys48();
    s := Turn(b, 56, s, 0x748f82ee, 0xef57b9cd, 0xfcd1887b, 0x9b5e906c);
    s := Turn(b, 57, s, 0x78a5636f, 0xebe6b238, 0xc062d46f, 0x7e44008e);
    s := Turn(b, 58, s, 0x84c87814, 0x9fe3095e, 0xffb70472, 0x6d83bfc6);
    s := Turn(b, 59, s, 0x8cc70208, 0x78bc8d4b, 0xb6ae8fff, 0xb21bad3d);
    s := Turn(b, 60, s, 0x90befffa, 0xa43fcf15, 0xb85e2ce9, 0x961f4894);
    s := Turn(b, 61, s, 0xa4506ceb, 0x668b2ff8, 0x04d24d6c, 0x948d25b6);
    s := Turn(b, 62, s, 0xbef9a3f7, 0xeeaba2cc, 0xd39a2165, 0xfb121210);
    s := Turn(b, 63, s, 0xc67178f2, 0x12b1edeb, 0x506e3058, 0x5ef50f24);
  }

  // ---------- The digest ----------

  ghost method AbcHash()
    ensures Absorb(INITIAL, Padded(Abc())) ==
      Hash(0xba7816bf, 0x8f01cfea, 0x414140de, 0x5dae2223,
           0xb00361a3, 0x96177a9c, 0xb410ff61, 0xf20015ad)
  {
    hide Rounds, Plus, Padded;
    var b := Padded(Abc());
    AbcBlock();
    var s := Turns56(b);
    assert b[..0] == [] && b[0..] == b;
    assert Absorb(INITIAL, []) == INITIAL;
    AbcSums();
  }

  lemma AbcSums()
    ensures Plus(0x6a09e667, 0x506e3058) == 0xba7816bf && Plus(0xbb67ae85, 0xd39a2165) == 0x8f01cfea
    ensures Plus(0x3c6ef372, 0x04d24d6c) == 0x414140de && Plus(0xa54ff53a, 0xb85e2ce9) == 0x5dae2223
    ensures Plus(0x510e527f, 0x5ef50f24) == 0xb00361a3 && Plus(0x9b05688c, 0xfb121210) == 0x96177a9c
    ensures Plus(0x1f83d9ab, 0x948d25b6) == 0xb410ff61 && Plus(0x5be0cd19, 0x961f4894) == 0xf20015ad
  {
  }

  /** A word as bytes and as text. */
  lemma WordText(w: word, p: byte, q: byte, r: byte, s: byte, text: string)
    requires WordBytes(w) == [p, q, r, s]
    requires text == [HexDigit(p / 16), HexDigit(p % 16), HexDigit(q / 16), HexDigit(q % 16),
                      HexDigit(r / 16), HexDigit(r % 16), HexDigit(s / 16), HexDigit(s % 16)]
    ensures Hex(WordBytes(w)) == text
  {
    hide Hex, HexDigit;
    assert [p] + [q, r, s] == [p, q, r, s] && [q] + [r, s] == [q, r, s];
    assert [r] + [s] == [r, s] && [s] + [] == [s];
    HexCons(p, [q, r, s]);
    HexCons(q, [r, s]);
    HexCons(r, [s]);
    HexCons(s, []);
    NoHex();
  }

  lemma NoHex()
    ensures Hex([]) == ""
  {
  }

  lemma HexCons(x: byte, rest: bytes)
    ensures Hex([x] + rest) == [HexDigit(x / 16), HexDigit(x % 16)] + Hex(rest)
  {
    assert ([x] + rest)[1..] == rest;
  }

  lemma {:induction false} HexJoin(a: bytes, b: bytes)
    ensures Hex(a + b) == Hex(a) + Hex(b)
  {
    if a == [] {
      assert a + b == b;
    } else {
      assert (a + b)[1..] == a[1..] + b;
      HexJoin(a[1..], b);
    }
  }

  lemma AbcText0()
    ensures Hex(WordBytes(0xba7816bf)) == "ba7816bf"
  {
    hide Hex;
    WordText(0xba7816bf, 0xba, 0x78, 0x16, 0xbf, "ba7816bf");
  }

  lemma AbcText1()
    ensures Hex(WordBytes(0x8f01cfea)) == "8f01cfea"
  {
    hide Hex;
    WordText(0x8f01cfea, 0x8f, 0x01, 0xcf, 0xea, "8f01cfea");
  }

  lemma AbcText2()
    ensures Hex(WordBytes(0x414140de)) == "414140de"
  {
    hide Hex;
    WordText(0x414140de, 0x41, 0x41, 0x40, 0xde, "414140de");
  }

  lemma AbcText3()
    ensures Hex(WordBytes(0x5dae2223)) == "5dae2223"
  {
    hide Hex;
    WordText(0x5dae2223, 0x5d, 0xae, 0x22, 0x23, "5dae2223");
  }

  lemma AbcText4()
    ensures Hex(WordBytes(0xb00361a3)) == "b00361a3"
  {
    hide Hex;
    WordText(0xb00361a3, 0xb0, 0x03, 0x61, 0xa3, "b00361a3");
  }

  lemma AbcText5()
    ensures Hex(WordBytes(0x96177a9c)) == "96177a9c"
  {
    hide Hex;
    WordText(0x96177a9c, 0x96, 0x17, 0x7a, 0x9c, "96177a9c");
  }

  lemma AbcText6()
    ensures Hex(WordBytes(0xb410ff61)) == "b410ff61"
  {
    hide Hex;
    WordText(0xb410ff61, 0xb4, 0x10, 0xff, 0x61, "b410ff61");
  }

  lemma AbcText7()
    ensures Hex(WordBytes(0xf20015ad)) == "f20015ad"
  {
    hide Hex;
    WordText(0xf20015ad, 0xf2, 0x00, 0x15, 0xad, "f20015ad");
  }

  lemma AbcText(s: Hash)
    requires s ==
      Hash(0xba7816bf, 0x8f01cfea, 0x414140de, 0x5dae2223,
           0xb00361a3, 0x96177a9c, 0xb410ff61, 0xf20015ad)
    ensures Hex(HashBytes(s)) ==
      "ba7816bf" + "8f01cfea" + "414140de" + "5dae2223" +
      "b00361a3" + "96177a9c" + "b410ff61" + "f20015ad"
  {
    hide Hex, WordBytes;
    AbcText0();
    AbcText1();
    AbcText2();
    AbcText3();
    AbcText4();
    AbcText5();
    AbcText6();
    AbcText7();
    HexHash(s);
  }

  /** Hashing "abc" gives the digest of the standard. */
  method HashAbc() returns (hex: string)
    ensures hex ==
      "ba7816bf" + "8f01cfea" + "414140de" + "5dae2223" +
      "b00361a3" + "96177a9c" + "b410ff61" + "f20015ad"
  {
    hide Hex, Padded, HashBytes, Absorb;
    hex := Sha256Hex(Abc());
    AbcHash();
    PaddedIsBlocks(Abc());
    AbcText(Absorb(INITIAL, Padded(Abc())));
  }

  lemma HexHash(s: Hash)
    ensures Hex(HashBytes(s)) ==
      Hex(WordBytes(s.a)) + Hex(WordBytes(s.b)) + Hex(WordBytes(s.c)) + Hex(WordBytes(s.d)) +
      Hex(WordBytes(s.e)) + Hex(WordBytes(s.f)) + Hex(WordBytes(s.g)) + Hex(WordBytes(s.h))
  {
    hide Hex, WordBytes;
    var a, b, c, d := WordBytes(s.a), WordBytes(s.b), WordBytes(s.c), WordBytes(s.d);
    var e, f, g, h := WordBytes(s.e), WordBytes(s.f), WordBytes(s.g), WordBytes(s.h);
    HexJoin(a, b);
    HexJoin(a + b, c);
    HexJoin(a + b + c, d);
    HexJoin(a + b + c + d, e);
    HexJoin(a + b + c + d + e, f);
    HexJoin(a + b + c + d + e + f, g);
    HexJoin(a + b + c + d + e + f + g, h);
  }
}
