/** The big-endian byte codecs of Utils.cpp. A 64-bit integer is its two's complement word, so
    negative numbers are the words with the top bit set. */
module Codec {

  type Byte = bv8

  /** The number that bytes spell, most significant byte first. */
  function BigEndian(p: seq<Byte>): bv64 {
    if p == [] then 0 else (BigEndian(p[..|p| - 1]) << 8) | (p[|p| - 1] as bv64)
  }

  /** A buffer that holds bytes at off, one by one. */
  lemma Assembled(p: seq<Byte>, off: nat, bytes: seq<Byte>)
    requires off + |bytes| <= |p|
    requires forall i :: 0 <= i < |bytes| ==> p[off + i] == bytes[i]
    ensures p[off..off + |bytes|] == bytes
    ensures p == p[..off] + bytes + p[off + |bytes|..]
  {
  }

  lemma AssembledFromEight(p: seq<Byte>, off: nat, b: seq<Byte>)
    requires off + 8 <= |p| && |b| == 8
    requires p[off] == b[0] && p[off + 1] == b[1] && p[off + 2] == b[2] && p[off + 3] == b[3]
    requires p[off + 4] == b[4] && p[off + 5] == b[5] && p[off + 6] == b[6] && p[off + 7] == b[7]
    ensures p[off..off + 8] == b
    ensures p == p[..off] + b + p[off + 8..]
  {
    Assembled(p, off, b);
  }

  // ---- 32 bits, unsigned ----

  function GetU32(p: seq<Byte>): bv32
    requires |p| == 4
  {
    ((p[0] as bv32) << 24) | ((p[1] as bv32) << 16) | ((p[2] as bv32) << 8) | (p[3] as bv32)
  }

  function BytesU32(n: bv32): (p: seq<Byte>)
    ensures |p| == 4
  {
    [((n >> 24) & 0xFF) as Byte, ((n >> 16) & 0xFF) as Byte, ((n >> 8) & 0xFF) as Byte, (n & 0xFF) as Byte]
  }

  /** Writes the four bytes at off, and nothing else. */
  method PutU32(p: array<Byte>, off: nat, n: bv32) returns (size: nat)
    requires off + 4 <= p.Length
    modifies p
    ensures size == 4
    ensures p[..] == old(p[..off]) + BytesU32(n) + old(p[off + 4..])
    ensures GetU32(p[off..off + 4]) == n
  {
    p[off] := ((n >> 24) & 0xFF) as Byte;
    p[off + 1] := ((n >> 16) & 0xFF) as Byte;
    p[off + 2] := ((n >> 8) & 0xFF) as Byte;
    p[off + 3] := (n & 0xFF) as Byte;
    Assembled(p[..], off, BytesU32(n));
    GetPutU32(n);
    return 4;
  }

  lemma GetPutU32(n: bv32)
    ensures GetU32(BytesU32(n)) == n
  {
  }

  /** Get and put undo each other, over all values and all byte strings. */
  lemma U32RoundTrip(n: bv32, p: seq<Byte>)
    requires |p| == 4
    ensures GetU32(p) == n <==> BytesU32(n) == p
  {
    GetPutU32(n);
    if GetU32(p) == n {
      assert BytesU32(n)[0] == p[0] && BytesU32(n)[1] == p[1] && BytesU32(n)[2] == p[2] && BytesU32(n)[3] == p[3];
    }
  }

  /** Spelling takes off the last byte. */
  lemma Spelled(p: seq<Byte>, k: nat)
    requires k < |p|
    ensures BigEndian(p[..k + 1]) == (BigEndian(p[..k]) << 8) | (p[k] as bv64)
  {
    assert p[..k + 1][..k] == p[..k];
  }

  lemma Shifts4(a: bv64, b: bv64, c: bv64, d: bv64)
    ensures ((((((a << 8) | b) << 8) | c) << 8) | d) == (a << 24) | (b << 16) | (c << 8) | d
  {
  }

  lemma Widen4(a: Byte, b: Byte, c: Byte, d: Byte)
    ensures (((a as bv32) << 24) | ((b as bv32) << 16) | ((c as bv32) << 8) | (d as bv32)) as bv64
         == ((a as bv64) << 24) | ((b as bv64) << 16) | ((c as bv64) << 8) | (d as bv64)
  {
  }

  lemma FourSpelled(p: seq<Byte>)
    requires |p| >= 4
    ensures BigEndian(p[..4]) == ((p[0] as bv64) << 24) | ((p[1] as bv64) << 16) | ((p[2] as bv64) << 8) | (p[3] as bv64)
  {
    Spelled(p, 0);
    Spelled(p, 1);
    Spelled(p, 2);
    Spelled(p, 3);
    assert p[..0] == [];
    Shifts4(p[0] as bv64, p[1] as bv64, p[2] as bv64, p[3] as bv64);
  }

  /** What is read is the number the four bytes spell. */
  lemma U32IsBigEndian(p: seq<Byte>)
    requires |p| == 4
    ensures GetU32(p) as bv64 == BigEndian(p)
  {
    FourSpelled(p);
    assert p[..4] == p;
    Widen4(p[0], p[1], p[2], p[3]);
  }

  // ---- 64 bits, signed ----

  function Word(a: Byte, b: Byte, c: Byte, d: Byte, e: Byte, f: Byte, g: Byte, h: Byte): bv64 {
    ((a as bv64) << 56) | ((b as bv64) << 48) | ((c as bv64) << 40) | ((d as bv64) << 32)
    | ((e as bv64) << 24) | ((f as bv64) << 16) | ((g as bv64) << 8) | (h as bv64)
  }

  function GetS64(p: seq<Byte>): bv64
    requires |p| == 8
  {
    Word(p[0], p[1], p[2], p[3], p[4], p[5], p[6], p[7])
  }

  function BytesS64(n: bv64): (p: seq<Byte>)
    ensures |p| == 8
  {
    [((n >> 56) & 0xFF) as Byte, ((n >> 48) & 0xFF) as Byte, ((n >> 40) & 0xFF) as Byte, ((n >> 32) & 0xFF) as Byte,
     ((n >> 24) & 0xFF) as Byte, ((n >> 16) & 0xFF) as Byte, ((n >> 8) & 0xFF) as Byte, (n & 0xFF) as Byte]
  }

  /** Writes the eight bytes at off, and nothing else. */
  method PutS64(p: array<Byte>, off: nat, n: bv64) returns (size: nat)
    requires off + 8 <= p.Length
    modifies p
    ensures size == 8
    ensures p[..] == old(p[..off]) + BytesS64(n) + old(p[off + 8..])
    ensures GetS64(p[off..off + 8]) == n
  {
    ghost var b := BytesS64(n);
    assert GetS64(b) == n by {
      GetPutS64(n);
    }
    p[off] := ((n >> 56) & 0xFF) as Byte;
    p[off + 1] := ((n >> 48) & 0xFF) as Byte;
    p[off + 2] := ((n >> 40) & 0xFF) as Byte;
    p[off + 3] := ((n >> 32) & 0xFF) as Byte;
    p[off + 4] := ((n >> 24) & 0xFF) as Byte;
    p[off + 5] := ((n >> 16) & 0xFF) as Byte;
    p[off + 6] := ((n >> 8) & 0xFF) as Byte;
    p[off + 7] := (n & 0xFF) as Byte;
    AssembledFromEight(p[..], off, b);
    return 8;
  }

  lemma GetPutS64(n: bv64)
    ensures GetS64(BytesS64(n)) == n
  {
  }

  lemma HighBytes(a: Byte, b: Byte, c: Byte, d: Byte, e: Byte, f: Byte, g: Byte, h: Byte)
    ensures var n := Word(a, b, c, d, e, f, g, h);
            && ((n >> 56) & 0xFF) as Byte == a && ((n >> 48) & 0xFF) as Byte == b
            && ((n >> 40) & 0xFF) as Byte == c && ((n >> 32) & 0xFF) as Byte == d
            && (n >= 0x8000_0000_0000_0000 <==> a >= 0x80)
  {
  }

  lemma LowBytes(a: Byte, b: Byte, c: Byte, d: Byte, e: Byte, f: Byte, g: Byte, h: Byte)
    ensures var n := Word(a, b, c, d, e, f, g, h);
            && ((n >> 24) & 0xFF) as Byte == e && ((n >> 16) & 0xFF) as Byte == f
            && ((n >> 8) & 0xFF) as Byte == g && (n & 0xFF) as Byte == h
  {
  }

  lemma PutGetS64(p: seq<Byte>)
    requires |p| == 8
    ensures BytesS64(GetS64(p)) == p
  {
    HighBytes(p[0], p[1], p[2], p[3], p[4], p[5], p[6], p[7]);
    LowBytes(p[0], p[1], p[2], p[3], p[4], p[5], p[6], p[7]);
    assert p == [p[0], p[1], p[2], p[3], p[4], p[5], p[6], p[7]];
  }

  /** Get and put undo each other, over all values and all byte strings; the sign is the top bit
      of the first byte. */
  lemma S64RoundTrip(n: bv64, p: seq<Byte>)
    requires |p| == 8
    ensures GetS64(p) == n <==> BytesS64(n) == p
    ensures GetS64(p) >= 0x8000_0000_0000_0000 <==> p[0] >= 0x80
  {
    GetPutS64(n);
    PutGetS64(p);
    HighBytes(p[0], p[1], p[2], p[3], p[4], p[5], p[6], p[7]);
  }

  lemma Shifts8(n: bv64, a: bv64, b: bv64, c: bv64, d: bv64)
    ensures ((((((((n << 8) | a) << 8) | b) << 8) | c) << 8) | d) == (n << 32) | (a << 24) | (b << 16) | (c << 8) | d
  {
  }

  lemma Shift32(a: bv64, b: bv64, c: bv64, d: bv64)
    ensures ((a << 24) | (b << 16) | (c << 8) | d) << 32 == (a << 56) | (b << 48) | (c << 40) | (d << 32)
  {
  }

  /** What is read is the two's complement word the eight bytes spell. */
  lemma S64IsBigEndian(p: seq<Byte>)
    requires |p| == 8
    ensures GetS64(p) == BigEndian(p)
  {
    FourSpelled(p);
    Spelled(p, 4);
    Spelled(p, 5);
    Spelled(p, 6);
    Spelled(p, 7);
    assert p[..8] == p;
    Shifts8(BigEndian(p[..4]), p[4] as bv64, p[5] as bv64, p[6] as bv64, p[7] as bv64);
    Shift32(p[0] as bv64, p[1] as bv64, p[2] as bv64, p[3] as bv64);
  }
}
