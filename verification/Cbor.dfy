/** CBOR items (src/core/cbor.c), deterministic encoding of RFC 8949. */
module Cbor {
  import opened Syntax

  type byte = x: int | 0 <= x < 256
  type bytes = seq<byte>

  const TWO64: nat := 0x1_0000_0000_0000_0000
  const TWO63: nat := 0x8000_0000_0000_0000
  const INT64_MIN: int := -0x8000_0000_0000_0000

  // ---------- Text as bytes ----------

  /** C strings: characters are non-zero bytes. */
  predicate ByteText(s: string) {
    forall i :: 0 <= i < |s| ==> 0 < s[i] as int < 256
  }

  /** C strings that fit in memory. */
  predicate WireText(s: string) {
    ByteText(s) && |s| < TWO64
  }

  /** snprintf into a buffer of this size. */
  function Clipped(room: nat, text: string): (r: string)
    ensures r <= text && (room > 0 ==> |r| < room)
    ensures |text| < room ==> r == text
    ensures 0 < room <= |text| ==> |r| == room - 1
  {
    if room == 0 then "" else if |text| < room then text else text[..room - 1]
  }

  function ToBytes(s: string): (b: bytes)
    ensures |b| == |s|
  {
    seq(|s|, i requires 0 <= i < |s| => s[i] as int % 256)
  }

  function FromBytes(b: bytes): (s: string)
    ensures |s| == |b|
  {
    seq(|b|, i requires 0 <= i < |b| => b[i] as char)
  }

  /** What C sees of a buffer: the characters in front of the first NUL. */
  function CString(s: string): (r: string)
    ensures |r| <= |s|
  {
    if s == [] || s[0] == '\0' then "" else [s[0]] + CString(s[1..])
  }

  lemma {:induction false} ByteTextWhole(s: string)
    requires ByteText(s)
    ensures CString(s) == s
  {
    if s != [] {
      ByteTextWhole(s[1..]);
    }
  }

  lemma TextBytes(s: string)
    requires ByteText(s)
    ensures CString(FromBytes(ToBytes(s))) == s
  {
    forall i | 0 <= i < |s|
      ensures FromBytes(ToBytes(s))[i] == s[i]
    {
    }
    assert FromBytes(ToBytes(s)) == s;
    ByteTextWhole(s);
  }

  // ---------- Big-endian numbers ----------

  function Pow256(n: nat): nat {
    if n == 0 then 1 else 256 * Pow256(n - 1)
  }

  function BigEndian(v: nat, n: nat): (b: bytes)
    ensures |b| == n
  {
    if n == 0 then [] else BigEndian(v / 256, n - 1) + [v % 256]
  }

  function FromBigEndian(b: bytes): nat {
    if b == [] then 0 else 256 * FromBigEndian(b[..|b| - 1]) + b[|b| - 1]
  }

  lemma {:induction false} BigEndianRoundTrip(v: nat, n: nat)
    requires v < Pow256(n)
    ensures FromBigEndian(BigEndian(v, n)) == v
  {
    if n > 0 {
      BigEndianRoundTrip(v / 256, n - 1);
      var b := BigEndian(v, n);
      assert b[..|b| - 1] == BigEndian(v / 256, n - 1);
    }
  }

  lemma {:induction false} FromBigEndianBound(b: bytes)
    ensures FromBigEndian(b) < Pow256(|b|)
  {
    if b != [] {
      FromBigEndianBound(b[..|b| - 1]);
    }
  }

  lemma Powers()
    ensures Pow256(1) == 0x100 && Pow256(2) == 0x1_0000 && Pow256(4) == 0x1_0000_0000 && Pow256(8) == TWO64
  {
    assert Pow256(3) == 0x100_0000;
    assert Pow256(5) == 0x100_0000_0000;
    assert Pow256(6) == 0x1_0000_0000_0000;
    assert Pow256(7) == 0x100_0000_0000_0000;
  }

  // ---------- Heads ----------

  /** The upper three bits of a head byte. */
  type major = x: int | 0 <= x < 256 && x % 32 == 0

  const UINT: major := 0x00
  const NEGATIVE: major := 0x20
  const BYTES: major := 0x40
  const TEXT: major := 0x60
  const ARRAY: major := 0x80
  const MAP: major := 0xa0
  const FALSE_BYTE: byte := 0xf4
  const TRUE_BYTE: byte := 0xf5
  const NULL_BYTE: byte := 0xf6

  /** Bytes that follow a head byte with this additional information. */
  function FollowCount(addl: nat): nat {
    if addl == 24 then 1 else if addl == 25 then 2 else if addl == 26 then 4 else if addl == 27 then 8 else 0
  }

  /** etb_cbor_write_type_value */
  function Head(m: major, v: nat): (b: bytes)
    ensures 1 <= |b| <= 9
  {
    if v <= 23 then [m + v]
    else if v <= 0xff then [m + 24] + BigEndian(v, 1)
    else if v <= 0xffff then [m + 25] + BigEndian(v, 2)
    else if v <= 0xffff_ffff then [m + 26] + BigEndian(v, 4)
    else [m + 27] + BigEndian(v, 8)
  }

  datatype Read<T> = Read(value: T, next: nat)

  /** etb_cbor_read_type_value: the value and the offset behind the head. */
  function ReadHead(d: bytes, o: nat, m: major): (r: Option<Read<nat>>)
    ensures r.Some? ==> o < r.value.next <= |d| && r.value.value < TWO64
  {
    if o >= |d| || d[o] / 32 * 32 != m then None
    else
      var addl := d[o] % 32;
      if addl <= 23 then Some(Read(addl, o + 1))
      else
        var n := FollowCount(addl);
        if n == 0 || o + 1 + n > |d| then None
        else
          FromBigEndianBound(d[o + 1..o + 1 + n]);
          Powers();
          Some(Read(FromBigEndian(d[o + 1..o + 1 + n]), o + 1 + n))
  }

  /** `d` continues with `t` at `o`. */
  predicate Has(d: bytes, o: nat, t: bytes) {
    o + |t| <= |d| && d[o..o + |t|] == t
  }

  lemma HasSplit(d: bytes, o: nat, t: bytes, u: bytes)
    ensures Has(d, o, t + u) <==> Has(d, o, t) && Has(d, o + |t|, u)
  {
    if o + |t| + |u| <= |d| {
      assert d[o..o + |t| + |u|] == d[o..o + |t|] + d[o + |t|..o + |t| + |u|];
      if Has(d, o, t + u) {
        assert d[o..o + |t|] == (t + u)[..|t|];
        assert d[o + |t|..o + |t| + |u|] == (t + u)[|t|..];
      }
    }
  }

  lemma HasAll(d: bytes)
    ensures Has(d, 0, d)
  {
    assert d[0..] == d;
  }

  lemma HeadReads(d: bytes, o: nat, m: major, v: nat)
    requires v < TWO64 && Has(d, o, Head(m, v))
    ensures ReadHead(d, o, m) == Some(Read(v, o + |Head(m, v)|))
  {
    hide BigEndian, FromBigEndian, Pow256;
    Powers();
    var h := Head(m, v);
    assert d[o] == d[o..o + |h|][0] == h[0];
    if v > 23 {
      var n := |h| - 1;
      assert h[1..] == BigEndian(v, n);
      assert d[o + 1..o + 1 + n] == d[o..o + |h|][1..];
      BigEndianRoundTrip(v, n);
    }
  }

  /** No byte string that is read as this head is shorter than the one written (RFC 8949, section 4.2.1). */
  lemma HeadShortest(d: bytes, o: nat, m: major)
    requires ReadHead(d, o, m).Some?
    ensures |Head(m, ReadHead(d, o, m).value.value)| <= ReadHead(d, o, m).value.next - o
  {
    Powers();
    var addl := d[o] % 32;
    if addl > 23 {
      var n := FollowCount(addl);
      FromBigEndianBound(d[o + 1..o + 1 + n]);
    }
  }

  // ---------- Items ----------

  function IntBytes(v: int): bytes {
    if v >= 0 then Head(UINT, v) else Head(NEGATIVE, -1 - v)
  }

  function TextItem(s: string): bytes {
    Head(TEXT, |s|) + ToBytes(s)
  }

  function BytesItem(b: bytes): bytes {
    Head(BYTES, |b|) + b
  }

  function BoolItem(v: bool): bytes {
    [if v then TRUE_BYTE else FALSE_BYTE]
  }

  /** Two's complement reading of 64 bits. */
  function Signed(v: nat): int
    requires v < TWO64
  {
    if v < TWO63 then v else v - TWO64
  }

  function ReadInt(d: bytes, o: nat): Option<Read<int>> {
    if o >= |d| then None
    else if d[o] / 32 * 32 == UINT then
      var r := ReadHead(d, o, UINT);
      if r.None? then None else Some(Read(Signed(r.value.value), r.value.next))
    else
      var r := ReadHead(d, o, NEGATIVE);
      if r.None? then None else Some(Read(-Signed((r.value.value + 1) % TWO64), r.value.next))
  }

  function ReadBytes(d: bytes, o: nat, m: major): (r: Option<Read<bytes>>)
    ensures r.Some? ==> o < r.value.next <= |d|
  {
    var h := ReadHead(d, o, m);
    if h.None? || h.value.next + h.value.value > |d| then None
    else Some(Read(d[h.value.next..h.value.next + h.value.value], h.value.next + h.value.value))
  }

  function ReadText(d: bytes, o: nat): (r: Option<Read<string>>)
    ensures r.Some? ==> o < r.value.next <= |d|
  {
    var b := ReadBytes(d, o, TEXT);
    if b.None? then None else Some(Read(CString(FromBytes(b.value.value)), b.value.next))
  }

  function ReadBool(d: bytes, o: nat): (r: Option<Read<bool>>)
    ensures r.Some? ==> o < r.value.next <= |d|
  {
    if o >= |d| then None
    else if d[o] == FALSE_BYTE then Some(Read(false, o + 1))
    else if d[o] == TRUE_BYTE then Some(Read(true, o + 1))
    else None
  }

  predicate IsNull(d: bytes, o: nat) {
    o < |d| && d[o] == NULL_BYTE
  }

  /** Integers other than the smallest one come back, whatever follows. */
  lemma IntReads(d: bytes, o: nat, v: int)
    requires INT64_MIN < v < TWO63 && Has(d, o, IntBytes(v))
    ensures ReadInt(d, o) == Some(Read(v, o + |IntBytes(v)|))
  {
    hide BigEndian, ReadHead;
    var h := IntBytes(v);
    assert d[o] == d[o..o + |h|][0] == h[0];
    if v >= 0 {
      HeadReads(d, o, UINT, v);
    } else {
      HeadReads(d, o, NEGATIVE, -1 - v);
    }
  }

  lemma BytesRead(d: bytes, o: nat, m: major, b: bytes)
    requires |b| < TWO64 && Has(d, o, Head(m, |b|) + b)
    ensures ReadBytes(d, o, m) == Some(Read(b, o + |Head(m, |b|)| + |b|))
  {
    hide Head, ReadHead, BigEndian;
    HasSplit(d, o, Head(m, |b|), b);
    HeadReads(d, o, m, |b|);
  }

  lemma TextReads(d: bytes, o: nat, s: string)
    requires ByteText(s) && |s| < TWO64 && Has(d, o, TextItem(s))
    ensures ReadText(d, o) == Some(Read(s, o + |TextItem(s)|))
  {
    BytesRead(d, o, TEXT, ToBytes(s));
    TextBytes(s);
  }

  lemma BoolReads(d: bytes, o: nat, v: bool)
    requires Has(d, o, BoolItem(v))
    ensures ReadBool(d, o) == Some(Read(v, o + 1))
  {
    assert d[o] == d[o..o + 1][0];
  }

  /** Items of appendix A of RFC 8949. */
  lemma AppendixA()
    ensures IntBytes(0) == [0x00] && IntBytes(23) == [0x17] && IntBytes(24) == [0x18, 0x18]
    ensures IntBytes(100) == [0x18, 0x64] && IntBytes(1000) == [0x19, 0x03, 0xe8]
    ensures IntBytes(1000000) == [0x1a, 0x00, 0x0f, 0x42, 0x40]
    ensures IntBytes(1000000000000) == [0x1b, 0x00, 0x00, 0x00, 0xe8, 0xd4, 0xa5, 0x10, 0x00]
    ensures IntBytes(-1) == [0x20] && IntBytes(-100) == [0x38, 0x63] && IntBytes(-1000) == [0x39, 0x03, 0xe7]
    ensures BoolItem(false) == [0xf4] && BoolItem(true) == [0xf5] && NULL_BYTE == 0xf6
    ensures BytesItem([1, 2, 3, 4]) == [0x44, 0x01, 0x02, 0x03, 0x04]
    ensures TextItem("") == [0x60] && TextItem("IETF") == [0x64, 0x49, 0x45, 0x54, 0x46]
    ensures Head(ARRAY, 0) == [0x80] && Head(ARRAY, 25) == [0x98, 0x19]
    ensures Head(MAP, 0) == [0xa0] && Head(MAP, 2) == [0xa2]
  {
    hide BigEndian;
    Numbers();
    assert ToBytes("IETF") == [0x49, 0x45, 0x54, 0x46];
  }

  lemma Numbers()
    ensures BigEndian(24, 1) == [0x18] && BigEndian(25, 1) == [0x19]
    ensures BigEndian(100, 1) == [0x64] && BigEndian(99, 1) == [0x63]
    ensures BigEndian(1000, 2) == [0x03, 0xe8] && BigEndian(999, 2) == [0x03, 0xe7]
    ensures BigEndian(1000000, 4) == [0x00, 0x0f, 0x42, 0x40]
    ensures BigEndian(1000000000000, 8) == [0x00, 0x00, 0x00, 0xe8, 0xd4, 0xa5, 0x10, 0x00]
  {
    assert BigEndian(3, 1) == [0x03];
    assert BigEndian(0x0f, 2) == [0x00, 0x0f];
    assert BigEndian(0x0f42, 3) == [0x00, 0x0f, 0x42];
    assert BigEndian(0, 3) == [0x00, 0x00, 0x00];
    assert BigEndian(0xe8d4, 5) == [0x00, 0x00, 0x00, 0xe8, 0xd4];
    assert BigEndian(0xe8d4a5, 6) == [0x00, 0x00, 0x00, 0xe8, 0xd4, 0xa5];
    assert BigEndian(0xe8d4a510, 7) == [0x00, 0x00, 0x00, 0xe8, 0xd4, 0xa5, 0x10];
  }

  // ---------- Repeated items ----------

  /** `n` items read one after the other into `s`: the entries of a map or the elements of an array. */
  function Repeat<S>(step: (bytes, nat, S) -> Option<Read<S>>, d: bytes, o: nat, n: nat, s: S): Option<Read<S>>
    decreases n
  {
    if n == 0 then Some(Read(s, o))
    else
      var r := step(d, o, s);
      if r.None? then None else Repeat(step, d, r.value.next, n - 1, r.value.value)
  }

  lemma RepeatStep<S>(step: (bytes, nat, S) -> Option<Read<S>>, d: bytes, o: nat, n: nat, s: S)
    requires n > 0
    ensures step(d, o, s).None? ==> Repeat(step, d, o, n, s).None?
    ensures step(d, o, s).Some? ==>
      Repeat(step, d, o, n, s) == Repeat(step, d, step(d, o, s).value.next, n - 1, step(d, o, s).value.value)
  {
  }

  lemma {:induction false} RepeatSnoc<S>(step: (bytes, nat, S) -> Option<Read<S>>, d: bytes, o: nat, n: nat, s: S)
    requires Repeat(step, d, o, n, s).Some?
    ensures var r := Repeat(step, d, o, n, s).value;
      Repeat(step, d, o, n + 1, s) == step(d, r.next, r.value)
    decreases n
  {
    if n > 0 {
      var q := step(d, o, s).value;
      RepeatSnoc(step, d, q.next, n - 1, q.value);
    }
  }

  /** Once an item fails, no longer repetition succeeds. */
  lemma {:induction false} RepeatFails<S>(step: (bytes, nat, S) -> Option<Read<S>>, d: bytes, o: nat, n: nat, s: S)
    requires Repeat(step, d, o, n, s).None?
    ensures Repeat(step, d, o, n + 1, s).None?
    decreases n
  {
    var q := step(d, o, s);
    if q.Some? {
      RepeatFails(step, d, q.value.next, n - 1, q.value.value);
    }
  }

  lemma RepeatNone<S>(step: (bytes, nat, S) -> Option<Read<S>>, d: bytes, o: nat, s: S)
    ensures Repeat(step, d, o, 0, s) == Some(Read(s, o))
  {
  }

  /** A key of a map and its value. */
  function Field(key: string, value: bytes): bytes {
    TextItem(key) + value
  }

  lemma FieldKey(d: bytes, o: nat, key: string, value: bytes)
    requires ByteText(key) && |key| < TWO64 && Has(d, o, Field(key, value))
    ensures ReadText(d, o) == Some(Read(key, o + |TextItem(key)|)) && Has(d, o + |TextItem(key)|, value)
  {
    HasSplit(d, o, TextItem(key), value);
    TextReads(d, o, key);
  }

  // ---------- The growing buffer and the cursor ----------

  class Buffer {
    var data: array<byte>
    var size: nat

    ghost predicate Valid()
      reads this
    {
      size <= data.Length
    }

    ghost function Contents(): bytes
      reads this, data
      requires Valid()
    {
      data[..size]
    }

    constructor ()
      ensures Valid() && fresh(data) && Contents() == []
    {
      data := new byte[0];
      size := 0;
    }

    /** etb_cbor_reserve: doubles the capacity until the extra bytes fit. */
    method Reserve(extra: nat)
      requires Valid()
      modifies this`data
      ensures Valid() && Contents() == old(Contents())
      ensures size + extra <= data.Length && (data == old(data) || fresh(data))
    {
      if size + extra <= data.Length {
        return;
      }
      var capacity := if data.Length == 0 then 128 else data.Length * 2;
      while capacity < size + extra
        invariant capacity > 0 && capacity >= data.Length
        decreases size + extra - capacity
      {
        capacity := capacity * 2;
      }
      var grown := new byte[capacity];
      forall i | 0 <= i < size {
        grown[i] := data[i];
      }
      data := grown;
    }

    /** The writers' common step: make room, then copy. */
    method Append(b: bytes)
      requires Valid()
      modifies this, data
      ensures Valid() && Contents() == old(Contents()) + b
      ensures data == old(data) || fresh(data)
    {
      Reserve(|b|);
      ghost var before := Contents();
      forall i | 0 <= i < |b| {
        data[size + i] := b[i];
      }
      size := size + |b|;
      assert data[..size] == before + b;
    }

    /** etb_cbor_write_type_value, byte by byte in each of the five widths */
    method WriteHead(m: major, v: nat)
      requires Valid() && v < TWO64
      modifies this, data
      ensures Valid() && Contents() == old(Contents()) + Head(m, v)
      ensures data == old(data) || fresh(data)
    {
      if v <= 23 {
        Append([m + v]);
      } else if v <= 0xff {
        assert BigEndian(v, 1) == BigEndian(v / 256, 0) + [v];
        Append([m + 24, v]);
        assert [m + 24, v] == Head(m, v);
      } else if v <= 0xffff {
        BigEndian2(v);
        Append([m + 25, v / 0x100, v % 256]);
        assert [m + 25, v / 0x100, v % 256] == Head(m, v);
      } else if v <= 0xffff_ffff {
        BigEndian4(v);
        Append([m + 26] + [v / 0x100_0000, v / 0x1_0000 % 256, v / 0x100 % 256, v % 256]);
      } else {
        BigEndian8(v);
        Append([m + 27] + [v / 0x100_0000_0000_0000, v / 0x1_0000_0000_0000 % 256, v / 0x100_0000_0000 % 256,
                v / 0x1_0000_0000 % 256, v / 0x100_0000 % 256, v / 0x1_0000 % 256, v / 0x100 % 256, v % 256]);
      }
    }

    method WriteInt(v: int)
      requires Valid() && INT64_MIN <= v < TWO63
      modifies this, data
      ensures Valid() && Contents() == old(Contents()) + IntBytes(v)
      ensures data == old(data) || fresh(data)
    {
      if v >= 0 {
        WriteHead(UINT, v);
      } else {
        WriteHead(NEGATIVE, -1 - v);
      }
    }

    method WriteText(s: string)
      requires Valid() && |s| < TWO64
      modifies this, data
      ensures Valid() && Contents() == old(Contents()) + TextItem(s)
      ensures data == old(data) || fresh(data)
    {
      ghost var before := Contents();
      WriteHead(TEXT, |s|);
      Append(ToBytes(s));
      assert before + Head(TEXT, |s|) + ToBytes(s) == before + TextItem(s);
    }

    /** etb_cbor_write_null */
    method WriteNull()
      requires Valid()
      modifies this, data
      ensures Valid() && Contents() == old(Contents()) + [NULL_BYTE]
      ensures data == old(data) || fresh(data)
    {
      Append([NULL_BYTE]);
    }

    method WriteBool(v: bool)
      requires Valid()
      modifies this, data
      ensures Valid() && Contents() == old(Contents()) + BoolItem(v)
      ensures data == old(data) || fresh(data)
    {
      Append(BoolItem(v));
    }

    method WriteBytes(b: bytes)
      requires Valid() && |b| < TWO64
      modifies this, data
      ensures Valid() && Contents() == old(Contents()) + BytesItem(b)
      ensures data == old(data) || fresh(data)
    {
      ghost var before := Contents();
      WriteHead(BYTES, |b|);
      Append(b);
      assert before + Head(BYTES, |b|) + b == before + BytesItem(b);
    }
  }

  method WriteTextField(b: Buffer, key: string, text: string)
    requires b.Valid() && |key| < TWO64 && |text| < TWO64
    modifies b, b.data
    ensures b.Valid() && b.Contents() == old(b.Contents()) + Field(key, TextItem(text))
    ensures b.data == old(b.data) || fresh(b.data)
  {
    hide TextItem;
    ghost var before := b.Contents();
    b.WriteText(key);
    b.WriteText(text);
    assert before + TextItem(key) + TextItem(text) == before + Field(key, TextItem(text));
  }

  lemma BigEndian2(v: nat)
    requires v < 0x1_0000
    ensures BigEndian(v, 2) == [v / 0x100, v % 256]
  {
    assert BigEndian(v / 256, 1) == BigEndian(v / 256 / 256, 0) + [v / 256 % 256];
  }

  lemma BigEndian4(v: nat)
    requires v < 0x1_0000_0000
    ensures BigEndian(v, 4) == [v / 0x100_0000, v / 0x1_0000 % 256, v / 0x100 % 256, v % 256]
  {
    BigEndian2(v / 0x1_0000);
    assert BigEndian(v / 256, 3) == BigEndian(v / 256 / 256, 2) + [v / 256 % 256];
  }

  lemma BigEndian8(v: nat)
    requires v < TWO64
    ensures BigEndian(v, 8) == [v / 0x100_0000_0000_0000, v / 0x1_0000_0000_0000 % 256, v / 0x100_0000_0000 % 256,
      v / 0x1_0000_0000 % 256, v / 0x100_0000 % 256, v / 0x1_0000 % 256, v / 0x100 % 256, v % 256]
  {
    hide BigEndian;
    var a, b, c, d := v / 0x100, v / 0x1_0000, v / 0x100_0000, v / 0x1_0000_0000;
    LowDivisions(v);
    HighDivisions(v);
    BigEndian4(d);
    BigEndianStep(c, 5);
    BigEndianStep(b, 6);
    BigEndianStep(a, 7);
    BigEndianStep(v, 8);
  }

  lemma BigEndianStep(v: nat, n: nat)
    requires n > 0
    ensures BigEndian(v, n) == BigEndian(v / 256, n - 1) + [v % 256]
  {
  }

  lemma LowDivisions(v: nat)
    ensures v / 0x100 / 0x100 == v / 0x1_0000
    ensures v / 0x1_0000 / 0x100 == v / 0x100_0000
    ensures v / 0x100_0000 / 0x100 == v / 0x1_0000_0000
  {
  }

  lemma HighDivisions(v: nat)
    ensures v / 0x1_0000_0000 / 0x100 == v / 0x100_0000_0000
    ensures v / 0x1_0000_0000 / 0x1_0000 == v / 0x1_0000_0000_0000
    ensures v / 0x1_0000_0000 / 0x100_0000 == v / 0x100_0000_0000_0000
  {
  }

  class Cursor {
    const data: bytes
    var offset: nat

    constructor (data: bytes)
      ensures this.data == data && offset == 0
    {
      this.data := data;
      offset := 0;
    }

    /** etb_cbor_read_type_value, with its loop over the bytes that follow */
    method TakeHead(m: major) returns (ok: bool, v: nat)
      modifies this
      ensures ok <==> ReadHead(data, old(offset), m).Some?
      ensures ok ==> ReadHead(data, old(offset), m).value == Read(v, offset)
    {
      v := 0;
      if offset >= |data| {
        return false, v;
      }
      var head := data[offset];
      offset := offset + 1;
      if head / 32 * 32 != m {
        return false, v;
      }
      var addl := head % 32;
      if addl <= 23 {
        return true, addl;
      }
      var n := FollowCount(addl);
      if n == 0 || offset + n > |data| {
        return false, v;
      }
      var start := offset;
      while n > 0
        invariant 0 <= n && offset + n == start + FollowCount(addl) <= |data| && start <= offset
        invariant v == FromBigEndian(data[start..offset])
      {
        assert data[start..offset + 1] == data[start..offset] + [data[offset]];
        v := v * 256 + data[offset];
        offset := offset + 1;
        n := n - 1;
      }
      ok := true;
    }

    method TakeInt() returns (ok: bool, v: int)
      modifies this
      ensures ok <==> ReadInt(data, old(offset)).Some?
      ensures ok ==> ReadInt(data, old(offset)).value == Read(v, offset)
    {
      v := 0;
      if offset >= |data| {
        return false, v;
      }
      var raw;
      if data[offset] / 32 * 32 == UINT {
        ok, raw := TakeHead(UINT);
        if ok {
          v := Signed(raw);
        }
        return;
      }
      if data[offset] / 32 * 32 != NEGATIVE {
        return false, v;
      }
      ok, raw := TakeHead(NEGATIVE);
      if ok {
        v := -Signed((raw + 1) % TWO64);
      }
    }

    method TakeBytes(m: major) returns (ok: bool, b: bytes)
      modifies this
      ensures ok <==> ReadBytes(data, old(offset), m).Some?
      ensures ok ==> ReadBytes(data, old(offset), m).value == Read(b, offset)
    {
      var n;
      b := [];
      ok, n := TakeHead(m);
      if !ok || offset + n > |data| {
        return false, b;
      }
      b := data[offset..offset + n];
      offset := offset + n;
    }

    method TakeText() returns (ok: bool, s: string)
      modifies this
      ensures ok <==> ReadText(data, old(offset)).Some?
      ensures ok ==> ReadText(data, old(offset)).value == Read(s, offset)
    {
      var b;
      ok, b := TakeBytes(TEXT);
      s := CString(FromBytes(b));
    }

    /** etb_cbor_read_null, behind a test for the null byte */
    method TakeNull() returns (yes: bool)
      modifies this
      ensures yes <==> IsNull(data, old(offset))
      ensures offset == if yes then old(offset) + 1 else old(offset)
    {
      yes := offset < |data| && data[offset] == NULL_BYTE;
      if yes {
        offset := offset + 1;
      }
    }

    method TakeBool() returns (ok: bool, v: bool)
      modifies this
      ensures ok <==> ReadBool(data, old(offset)).Some?
      ensures ok ==> ReadBool(data, old(offset)).value == Read(v, offset)
    {
      v := false;
      if offset >= |data| {
        return false, v;
      }
      var b := data[offset];
      offset := offset + 1;
      ok := b == FALSE_BYTE || b == TRUE_BYTE;
      v := b == TRUE_BYTE;
    }
  }
}
