/** Fixed-width integers and the big- and little-endian readers and writers. */
module Bytes {

  type byte = x: int | 0 <= x < 0x100
  type u16 = x: int | 0 <= x < 0x1_0000
  type u24 = x: int | 0 <= x < 0x100_0000
  type u32 = x: int | 0 <= x < 0x1_0000_0000
  type u64 = x: int | 0 <= x < 0x1_0000_0000_0000_0000

  /** The number of values of a 32-bit word: 32-bit sums are taken modulo this. */
  const WORD := 0x1_0000_0000

  function Min(a: int, b: int): (m: int)
    ensures m == a || m == b
    ensures m <= a && m <= b
  {
    if a < b then a else b
  }

  function Max(a: nat, b: nat): nat {
    if a < b then b else a
  }

  function ReadU16Be(d: seq<byte>, at: nat): u16
    requires at + 2 <= |d|
  {
    0x100 * (d[at] as int) + d[at + 1]
  }

  function ReadU24Be(d: seq<byte>, at: nat): u24
    requires at + 3 <= |d|
  {
    0x1_0000 * (d[at] as int) + ReadU16Be(d, at + 1)
  }

  function ReadU32Be(d: seq<byte>, at: nat): u32
    requires at + 4 <= |d|
  {
    0x1_0000 * (ReadU16Be(d, at) as int) + ReadU16Be(d, at + 2)
  }

  function ReadU32Le(d: seq<byte>, at: nat): u32
    requires at + 4 <= |d|
  {
    ReadU32Be([d[at + 3], d[at + 2], d[at + 1], d[at]], 0)
  }

  /** The 64-bit pattern of a big-endian double. */
  function ReadU64Be(d: seq<byte>, at: nat): u64
    requires at + 8 <= |d|
  {
    WORD * (ReadU32Be(d, at) as int) + ReadU32Be(d, at + 4)
  }

  function WriteU16Be(v: u16): (d: seq<byte>)
    ensures |d| == 2
  {
    [v / 0x100, v % 0x100]
  }

  /** Writes the low 24 bits. */
  function WriteU24Be(v: u32): (d: seq<byte>)
    ensures |d| == 3
  {
    [v / 0x1_0000 % 0x100] + WriteU16Be(v % 0x1_0000)
  }

  function WriteU32Be(v: u32): (d: seq<byte>)
    ensures |d| == 4
  {
    WriteU16Be(v / 0x1_0000) + WriteU16Be(v % 0x1_0000)
  }

  function WriteU32Le(v: u32): (d: seq<byte>)
    ensures |d| == 4
  {
    var b := WriteU32Be(v);
    [b[3], b[2], b[1], b[0]]
  }

  function WriteU64Be(v: u64): (d: seq<byte>)
    ensures |d| == 8
  {
    WriteU32Be(v / WORD) + WriteU32Be(v % WORD)
  }

  /** Reading at a position finds v exactly when the bytes there are those written for v. */
  lemma ReadsU16Be(d: seq<byte>, at: nat, v: u16)
    requires at + 2 <= |d|
    ensures d[at..at + 2] == WriteU16Be(v) <==> ReadU16Be(d, at) == v
  {
  }

  lemma LowTwentyFour(v: u32)
    ensures v % 0x100_0000 == 0x1_0000 * (v / 0x1_0000 % 0x100) + v % 0x1_0000
  {
  }

  lemma SameParts(a: seq<byte>, s: seq<byte>, b: seq<byte>, t: seq<byte>)
    requires |a| == |b|
    ensures a + s == b + t <==> a == b && s == t
  {
    assert (a + s)[..|a|] == a && (a + s)[|a|..] == s;
    assert (b + t)[..|b|] == b && (b + t)[|b|..] == t;
  }

  lemma SameHigh(a: u16, x: u16, b: u16, y: u16)
    ensures 0x1_0000 * (a as int) + x == 0x1_0000 * (b as int) + y <==> a == b && x == y
  {
  }

  /** Only the low 24 bits survive. */
  lemma ReadsU24Be(d: seq<byte>, at: nat, v: u32)
    requires at + 3 <= |d|
    ensures d[at..at + 3] == WriteU24Be(v) <==> ReadU24Be(d, at) == v % 0x100_0000
  {
    var hi, lo := v / 0x1_0000 % 0x100, v % 0x1_0000;
    ReadsU16Be(d, at + 1, lo);
    assert d[at..at + 3] == [d[at]] + d[at + 1..at + 3];
    LowTwentyFour(v);
    hide ReadU16Be, WriteU16Be;
    SameParts([d[at]], d[at + 1..at + 3], [hi], WriteU16Be(lo));
    SameHigh(d[at], ReadU16Be(d, at + 1), hi, lo);
  }

  lemma ReadsU32Be(d: seq<byte>, at: nat, v: u32)
    requires at + 4 <= |d|
    ensures d[at..at + 4] == WriteU32Be(v) <==> ReadU32Be(d, at) == v
  {
    var hi, lo := v / 0x1_0000, v % 0x1_0000;
    ReadsU16Be(d, at, hi);
    ReadsU16Be(d, at + 2, lo);
    assert d[at..at + 4] == d[at..at + 2] + d[at + 2..at + 4];
    hide ReadU16Be, WriteU16Be;
    SameParts(d[at..at + 2], d[at + 2..at + 4], WriteU16Be(hi), WriteU16Be(lo));
    SameHigh(ReadU16Be(d, at), ReadU16Be(d, at + 2), hi, lo);
  }

  lemma ReadsU32Le(d: seq<byte>, at: nat, v: u32)
    requires at + 4 <= |d|
    ensures d[at..at + 4] == WriteU32Le(v) <==> ReadU32Le(d, at) == v
  {
    var r, w, s := [d[at + 3], d[at + 2], d[at + 1], d[at]], WriteU32Be(v), d[at..at + 4];
    ReadsU32Be(r, 0, v);
    assert r[0..4] == r;
    assert s[0] == d[at] && s[1] == d[at + 1] && s[2] == d[at + 2] && s[3] == d[at + 3];
    assert s == [s[0], s[1], s[2], s[3]] && w == [w[0], w[1], w[2], w[3]];
  }

  lemma ReadsU64Be(d: seq<byte>, at: nat, v: u64)
    requires at + 8 <= |d|
    ensures d[at..at + 8] == WriteU64Be(v) <==> ReadU64Be(d, at) == v
  {
    ReadsU32Be(d, at, v / WORD);
    ReadsU32Be(d, at + 4, v % WORD);
    assert d[at..at + 8] == d[at..at + 4] + d[at + 4..at + 8];
    hide ReadU32Be, WriteU32Be;
    SameParts(d[at..at + 4], d[at + 4..at + 8], WriteU32Be(v / WORD), WriteU32Be(v % WORD));
  }

  /** What the readers make of single bytes, by their places. */
  lemma ReadsByPlace(d: seq<byte>, at: nat)
    ensures at + 2 <= |d| ==> ReadU16Be(d, at) == 256 * (d[at] as int) + d[at + 1]
    ensures at + 3 <= |d| ==>
              ReadU24Be(d, at) == 65536 * (d[at] as int) + 256 * (d[at + 1] as int) + d[at + 2]
    ensures at + 4 <= |d| ==>
              ReadU32Be(d, at)
                == 16777216 * (d[at] as int) + 65536 * (d[at + 1] as int) + 256 * (d[at + 2] as int) + d[at + 3]
    ensures at + 4 <= |d| ==>
              ReadU32Le(d, at)
                == 16777216 * (d[at + 3] as int) + 65536 * (d[at + 2] as int) + 256 * (d[at + 1] as int) + d[at]
    ensures at + 8 <= |d| ==>
              ReadU64Be(d, at) == 4294967296 * (ReadU32Be(d, at) as int) + ReadU32Be(d, at + 4)
  {
  }

  /** The bytes of a text in ASCII. */
  function Ascii(text: string): seq<byte>
    requires forall i :: 0 <= i < |text| ==> text[i] < 128 as char
  {
    seq(|text|, i requires 0 <= i < |text| => text[i] as int)
  }

  /** Several pieces, one behind the other. */
  function Concat(cuts: seq<seq<byte>>): seq<byte> {
    if cuts == [] then [] else cuts[0] + Concat(cuts[1..])
  }

  // ---- Numbers by their digits

  function TwoBytes(n: nat): seq<byte>
    requires n < 65536
  {
    [n / 256, n % 256]
  }

  function ThreeBytes(n: nat): seq<byte>
    requires n < 16777216
  {
    [n / 65536, n / 256 % 256, n % 256]
  }

  function FourBytes(n: nat): seq<byte>
    requires n < 4294967296
  {
    [n / 16777216, n / 65536 % 256, n / 256 % 256, n % 256]
  }

  /** A number is the sum of its digits by their places. */
  lemma PlaceSum(n: u32)
    ensures n == 16777216 * (n / 16777216) + 65536 * (n / 65536 % 256) + 256 * (n / 256 % 256) + n % 256
    ensures n < 16777216 ==> n / 16777216 == 0 && n / 65536 % 256 == n / 65536
  {
    var q := n / 256;
    var p := q / 256;
    assert p == n / 65536 && p / 256 == n / 16777216;
  }

  lemma FourWritten(n: u32)
    ensures WriteU32Be(n) == FourBytes(n)
  {
    PlaceSum(n);
    ReadsByPlace(FourBytes(n), 0);
    ReadsU32Be(FourBytes(n), 0, n);
    hide ReadU32Be, WriteU32Be, FourBytes;
    assert FourBytes(n)[0..4] == FourBytes(n);
  }

  lemma ThreeWritten(n: u32)
    requires n < 16777216
    ensures WriteU24Be(n) == ThreeBytes(n)
  {
    PlaceSum(n);
    ReadsByPlace(ThreeBytes(n), 0);
    ReadsU24Be(ThreeBytes(n), 0, n);
    hide ReadU24Be, WriteU24Be;
    assert ThreeBytes(n)[0..3] == ThreeBytes(n);
  }

  lemma LittleWritten(n: u32)
    ensures WriteU32Le(n) == [n % 256, n / 256 % 256, n / 65536 % 256, n / 16777216]
  {
    FourWritten(n);
    hide WriteU32Be;
  }

  lemma TwoWritten(n: u16)
    ensures WriteU16Be(n) == TwoBytes(n)
  {
  }

  lemma EightWritten(n: u64)
    ensures WriteU64Be(n) == FourBytes(n / 4294967296) + FourBytes(n % 4294967296)
  {
    FourWritten(n / WORD);
    FourWritten(n % WORD);
    hide WriteU32Be, FourBytes;
  }
}
