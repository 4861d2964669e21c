/** Bytes, the fixed-width words made of them, and big-endian layout. */
module Bytes {
  type byte = b: int | 0 <= b < 256
  type u16 = n: int | 0 <= n < 0x1_0000
  type u32 = n: int | 0 <= n < 0x1_0000_0000
  type u64 = n: int | 0 <= n < 0x1_0000_0000_0000_0000
  type NonZeroU16 = n: int | 1 <= n < 0x1_0000 witness 1
  type NonZeroU32 = n: int | 1 <= n < 0x1_0000_0000 witness 1
  type NonZeroU64 = n: int | 1 <= n < 0x1_0000_0000_0000_0000 witness 1

  const U32_MAX: u32 := 0xFFFF_FFFF
  const U64_MAX: u64 := 0xFFFF_FFFF_FFFF_FFFF

  /** A checksum. Everything proved about the recording format holds for every such function. */
  type Checksum = seq<byte> -> u32

  /** The number of values that fit in `width` bytes. */
  function Limit(width: nat): (r: nat)
    ensures r >= 1
  {
    if width == 0 then 1 else 256 * Limit(width - 1)
  }

  lemma WordLimits()
    ensures Limit(1) == 256
    ensures Limit(2) == 0x1_0000
    ensures Limit(4) == 0x1_0000_0000
    ensures Limit(8) == 0x1_0000_0000_0000_0000
  {
    assert Limit(2) == 256 * Limit(1);
    assert Limit(3) == 256 * Limit(2);
    assert Limit(4) == 256 * Limit(3);
    assert Limit(5) == 256 * Limit(4);
    assert Limit(6) == 256 * Limit(5);
    assert Limit(7) == 256 * Limit(6);
  }

  function BigEndian(n: nat, width: nat): (s: seq<byte>)
    requires n < Limit(width)
    ensures |s| == width
  {
    if width == 0 then [] else BigEndian(n / 256, width - 1) + [n % 256]
  }

  function Value(s: seq<byte>): (n: nat)
    ensures n < Limit(|s|)
  {
    if s == [] then 0 else 256 * Value(s[..|s| - 1]) + s[|s| - 1]
  }

  lemma {:induction false} ValueOfBigEndian(n: nat, width: nat)
    requires n < Limit(width)
    ensures Value(BigEndian(n, width)) == n
  {
    if width > 0 {
      ValueOfBigEndian(n / 256, width - 1);
      var s := BigEndian(n, width);
      assert s[..|s| - 1] == BigEndian(n / 256, width - 1);
    }
  }

  lemma {:induction false} BigEndianOfValue(s: seq<byte>)
    ensures BigEndian(Value(s), |s|) == s
  {
    if s != [] {
      BigEndianOfValue(s[..|s| - 1]);
      assert Value(s) / 256 == Value(s[..|s| - 1]);
      assert s == s[..|s| - 1] + [s[|s| - 1]];
    }
  }

  function U16Bytes(n: u16): (s: seq<byte>)
    ensures |s| == 2
  {
    WordLimits();
    BigEndian(n, 2)
  }

  function U32Bytes(n: u32): (s: seq<byte>)
    ensures |s| == 4
  {
    WordLimits();
    BigEndian(n, 4)
  }

  function U64Bytes(n: u64): (s: seq<byte>)
    ensures |s| == 8
  {
    WordLimits();
    BigEndian(n, 8)
  }

  function ReadU16(bytes: seq<byte>, at: nat): (n: u16)
    requires at + 2 <= |bytes|
  {
    WordLimits();
    Value(bytes[at..at + 2])
  }

  function ReadU32(bytes: seq<byte>, at: nat): (n: u32)
    requires at + 4 <= |bytes|
  {
    WordLimits();
    Value(bytes[at..at + 4])
  }

  function ReadU64(bytes: seq<byte>, at: nat): (n: u64)
    requires at + 8 <= |bytes|
  {
    WordLimits();
    Value(bytes[at..at + 8])
  }

  /** A word read where it was written is the word; a word written from where it was read is the bytes. */
  lemma WordU16(bytes: seq<byte>, at: nat, n: u16)
    requires at + 2 <= |bytes|
    ensures bytes[at..at + 2] == U16Bytes(n) <==> ReadU16(bytes, at) == n
  {
    WordLimits();
    ValueOfBigEndian(n, 2);
    BigEndianOfValue(bytes[at..at + 2]);
  }

  lemma WordU32(bytes: seq<byte>, at: nat, n: u32)
    requires at + 4 <= |bytes|
    ensures bytes[at..at + 4] == U32Bytes(n) <==> ReadU32(bytes, at) == n
  {
    WordLimits();
    ValueOfBigEndian(n, 4);
    BigEndianOfValue(bytes[at..at + 4]);
  }

  lemma WordU64(bytes: seq<byte>, at: nat, n: u64)
    requires at + 8 <= |bytes|
    ensures bytes[at..at + 8] == U64Bytes(n) <==> ReadU64(bytes, at) == n
  {
    WordLimits();
    ValueOfBigEndian(n, 8);
    BigEndianOfValue(bytes[at..at + 8]);
  }

  // ---------------------------------------------------------------- parts put together

  function Concat(parts: seq<seq<byte>>): seq<byte> {
    if parts == [] then [] else Concat(parts[..|parts| - 1]) + parts[|parts| - 1]
  }

  lemma ConcatNone()
    ensures Concat([]) == []
  {
  }

  lemma {:induction false} ConcatMore(parts: seq<seq<byte>>, part: seq<byte>)
    ensures Concat(parts + [part]) == Concat(parts) + part
  {
    assert (parts + [part])[..|parts|] == parts;
  }

  lemma {:induction false} ConcatFront(parts: seq<seq<byte>>)
    requires parts != []
    ensures Concat(parts) == parts[0] + Concat(parts[1..])
  {
    hide Concat;
    ConcatNone();
    var n := |parts| - 1;
    var last := parts[n];
    assert parts == parts[..n] + [last];
    ConcatMore(parts[..n], last);
    if n == 0 {
      assert parts[..0] == [] && parts[1..] == [];
    } else {
      ConcatFront(parts[..n]);
      var middle := parts[1..n];
      assert parts[..n][1..] == middle && parts[1..] == middle + [last];
      ConcatMore(middle, last);
      assert (parts[0] + Concat(middle)) + last == parts[0] + (Concat(middle) + last);
    }
  }
}
