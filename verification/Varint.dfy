/**
 Variable-length integers (intformat.c; section 16 of RFC 9000): the two highest bits of the
 first byte give the length, the rest the number, most significant byte first.
 */
module Varint {
  import opened Powers

  predicate IsBytes(s: seq<int>) {
    forall i :: 0 <= i < |s| ==> 0 <= s[i] < 256
  }

  /** The number of bytes for a value, 0 if it has no encoding. */
  function VarintLen(val: nat): nat {
    if val < TWO_TO_6 then 1
    else if val < TWO_TO_14 then 2
    else if val < TWO_TO_30 then 4
    else if val < TWO_TO_62 then 8
    else 0
  }

  /** The byte of n that starts at a bit, given as a power of two. */
  function ByteAt(n: nat, shift: nat): (b: int)
    requires shift > 0
    ensures 0 <= b < 256
  {
    n / shift % 256
  }

  /** What the encoder writes: the length in the top two bits of the first byte, whose other six
      bits are the lowest of what is left for it. */
  function Encoded(n: nat): (r: seq<int>)
    ensures IsBytes(r)
  {
    if n < TWO_TO_6 then [n]
    else if n < TWO_TO_14 then [n / 0x100 + 0x40, ByteAt(n, 1)]
    else if n < TWO_TO_30 then [n / 0x100_0000 + 0x80, ByteAt(n, 0x1_0000), ByteAt(n, 0x100), ByteAt(n, 1)]
    else [n / 0x100_0000_0000_0000 % 64 + 0xC0, ByteAt(n, 0x1_0000_0000_0000), ByteAt(n, 0x100_0000_0000),
          ByteAt(n, 0x1_0000_0000), ByteAt(n, 0x100_0000), ByteAt(n, 0x1_0000), ByteAt(n, 0x100), ByteAt(n, 1)]
  }

  lemma EncodedLength(n: nat)
    ensures |Encoded(n)| == if n < TWO_TO_62 then VarintLen(n) else 8
  {
  }

  /** The number of bytes that an encoding starting with b has. */
  function LengthOf(b: int): nat
    requires 0 <= b < 256
  {
    if b < 64 then 1 else if b < 128 then 2 else if b < 192 then 4 else 8
  }

  /** Reading bytes onto a number. */
  function Read(v: nat, s: seq<int>): nat
    requires IsBytes(s)
    decreases |s|
  {
    if s == [] then v else 256 * Read(v, s[..|s| - 1]) + s[|s| - 1]
  }

  datatype Decoded = Decoded(length: nat, value: nat)

  /** Length 0 if there are not enough bytes. */
  function Decode(s: seq<int>): Decoded
    requires s != [] && IsBytes(s)
  {
    var length := LengthOf(s[0]);
    if length > |s| then Decoded(0, 0) else Decoded(length, Read(s[0] % 64, s[1..length]))
  }

  method VarintDecode(s: seq<int>) returns (length: nat, value: nat)
    requires s != [] && IsBytes(s)
    ensures Decoded(length, value) == Decode(s)
  {
    length := LengthOf(s[0]);
    if length > |s| {
      return 0, 0;
    }
    value := s[0] % 64;
    var i := 1;
    while i < length
      invariant 1 <= i <= length && value == Read(s[0] % 64, s[1..i])
    {
      ReadMore(s[0] % 64, s[1..i], s[i]);
      assert s[1..i + 1] == s[1..i] + [s[i]];
      value := 256 * value + s[i];
      i := i + 1;
    }
  }

  lemma ReadMore(v: nat, s: seq<int>, x: int)
    requires IsBytes(s) && 0 <= x < 256
    ensures IsBytes(s + [x]) && Read(v, s + [x]) == 256 * Read(v, s) + x
  {
    assert (s + [x])[..|s|] == s;
  }

  method Put4(bytes: array<int>, at: nat, a: int, b: int, c: int, d: int)
    requires at + 4 <= bytes.Length
    modifies bytes
    ensures bytes[at..at + 4] == [a, b, c, d]
    ensures bytes[..at] == old(bytes[..at]) && bytes[at + 4..] == old(bytes[at + 4..])
  {
    bytes[at], bytes[at + 1], bytes[at + 2], bytes[at + 3] := a, b, c, d;
  }

  method Put8(bytes: array<int>, at: nat, a: int, b: int, c: int, d: int, e: int, f: int, g: int, h: int)
    requires at + 8 <= bytes.Length
    modifies bytes
    ensures bytes[at..at + 8] == [a, b, c, d, e, f, g, h]
    ensures bytes[..at] == old(bytes[..at]) && bytes[at + 8..] == old(bytes[at + 8..])
  {
    bytes[at], bytes[at + 1], bytes[at + 2], bytes[at + 3] := a, b, c, d;
    bytes[at + 4], bytes[at + 5], bytes[at + 6], bytes[at + 7] := e, f, g, h;
  }

  /** Write a number at a place, if it fits; the result is how many bytes were written. */
  method VarintEncode(bytes: array<int>, at: nat, maxBytes: nat, n: nat) returns (length: nat)
    requires at + maxBytes <= bytes.Length
    modifies bytes
    ensures length == if |Encoded(n)| <= maxBytes then |Encoded(n)| else 0
    ensures length > 0 ==> bytes[at..at + length] == Encoded(n)
    ensures bytes[..at] == old(bytes[..at]) && bytes[at + length..] == old(bytes[at + length..])
  {
    length := 0;
    if n < 16384 {
      if n < 64 {
        if maxBytes > 0 {
          bytes[at] := n;
          length := 1;
        }
      } else {
        if maxBytes >= 2 {
          bytes[at], bytes[at + 1] := n / 0x100 + 0x40, ByteAt(n, 1);
          length := 2;
        }
      }
    } else if n < 1073741824 {
      if maxBytes >= 4 {
        Put4(bytes, at, n / 0x100_0000 + 0x80, ByteAt(n, 0x1_0000), ByteAt(n, 0x100), ByteAt(n, 1));
        length := 4;
      }
    } else {
      if maxBytes >= 8 {
        Put8(bytes, at, n / 0x100_0000_0000_0000 % 64 + 0xC0, ByteAt(n, 0x1_0000_0000_0000), ByteAt(n, 0x100_0000_0000),
             ByteAt(n, 0x1_0000_0000), ByteAt(n, 0x100_0000), ByteAt(n, 0x1_0000), ByteAt(n, 0x100), ByteAt(n, 1));
        length := 8;
      }
    }
  }

  // ---------- round trip ----------

  /** Four bytes are the number they are the bytes of. */
  lemma Join4(n: nat)
    requires n < 0x1_0000_0000
    ensures n ==
      0x100_0000 * (n / 0x100_0000) + 0x1_0000 * ByteAt(n, 0x1_0000) + 0x100 * ByteAt(n, 0x100) + ByteAt(n, 1)
  {
    var a := n / 0x100;
    var b := a / 0x100;
    assert n / 0x1_0000 == b && n / 0x100_0000 == b / 0x100;
  }

  lemma Read1(v: nat, a: int)
    requires 0 <= a < 256
    ensures Read(v, [a]) == 256 * v + a
  {
    ReadMore(v, [], a);
    assert [] + [a] == [a];
  }

  lemma Read3(v: nat, a: int, b: int, c: int)
    requires 0 <= a < 256 && 0 <= b < 256 && 0 <= c < 256
    ensures Read(v, [a, b, c]) == 0x100_0000 * v + 0x1_0000 * a + 0x100 * b + c
  {
    Read1(v, a);
    ReadMore(v, [a], b);
    ReadMore(v, [a, b], c);
    assert [a] + [b] == [a, b] && [a, b] + [c] == [a, b, c];
  }

  lemma Read7(v: nat, a: int, b: int, c: int, d: int, e: int, f: int, g: int)
    requires IsBytes([a, b, c, d, e, f, g])
    requires 0 <= a < 256 && 0 <= b < 256 && 0 <= c < 256 && 0 <= d < 256 && 0 <= e < 256 && 0 <= f < 256
    requires 0 <= g < 256
    ensures Read(v, [a, b, c, d, e, f, g]) == 0x1_0000_0000 * (0x100_0000 * v + 0x1_0000 * a + 0x100 * b + c)
      + (0x100_0000 * d + 0x1_0000 * e + 0x100 * f + g)
  {
    Read3(v, a, b, c);
    ReadMore(v, [a, b, c], d);
    ReadMore(v, [a, b, c] + [d], e);
    ReadMore(v, [a, b, c] + [d] + [e], f);
    ReadMore(v, [a, b, c] + [d] + [e] + [f], g);
    assert [a, b, c] + [d] + [e] + [f] + [g] == [a, b, c, d, e, f, g];
  }

  /** The upper half of a number, which may be too large, by its bytes. */
  lemma Upper(n: nat)
    requires n < TWO_TO_64
    ensures n % TWO_TO_62 / 0x1_0000_0000 == 0x100_0000 * (n / 0x100_0000_0000_0000 % 64)
      + 0x1_0000 * ByteAt(n, 0x1_0000_0000_0000) + 0x100 * ByteAt(n, 0x100_0000_0000) + ByteAt(n, 0x1_0000_0000)
  {
    HighPart(n);
    HighQuotients(n);
    UpperOf(n / 0x1_0000_0000);
  }

  lemma HighPart(n: nat)
    ensures n % TWO_TO_62 / 0x1_0000_0000 == n / 0x1_0000_0000 % 0x4000_0000
  {
  }

  lemma HighQuotients(n: nat)
    ensures n / 0x100_0000_0000 == n / 0x1_0000_0000 / 0x100
    ensures n / 0x1_0000_0000_0000 == n / 0x1_0000_0000 / 0x1_0000
    ensures n / 0x100_0000_0000_0000 == n / 0x1_0000_0000 / 0x100_0000
  {
  }

  lemma UpperOf(h: nat)
    requires h < 0x1_0000_0000
    ensures h % 0x4000_0000 == 0x100_0000 * (h / 0x100_0000 % 64) + 0x1_0000 * (h / 0x1_0000 % 256)
      + 0x100 * (h / 0x100 % 256) + h % 256
  {
    Join4(h);
  }

  /** Dividing by 256 again and again gives the bytes. */
  lemma Quotients(n: nat)
    ensures n / 0x1_0000 == n / 0x100 / 0x100 && n / 0x100_0000 == n / 0x100 / 0x100 / 0x100
    ensures n / 0x1_0000_0000 == n / 0x100 / 0x100 / 0x100 / 0x100
  {
  }

  lemma Lower(n: nat)
    ensures n % 0x1_0000_0000 == 0x100_0000 * ByteAt(n, 0x100_0000) + 0x1_0000 * ByteAt(n, 0x1_0000)
      + 0x100 * ByteAt(n, 0x100) + ByteAt(n, 1)
  {
    Quotients(n);
    var a := n / 0x100;
    var b := a / 0x100;
    var c := b / 0x100;
    var d := c / 0x100;
    assert n == 0x1_0000_0000 * d + 0x100_0000 * (c % 0x100) + 0x1_0000 * (b % 0x100) + 0x100 * (a % 0x100) + n % 0x100;
  }

  lemma Halves(n: nat)
    ensures n % TWO_TO_62 == 0x1_0000_0000 * (n % TWO_TO_62 / 0x1_0000_0000) + n % 0x1_0000_0000
  {
    assert n % TWO_TO_62 % 0x1_0000_0000 == n % 0x1_0000_0000;
  }

  /** The bytes of a long encoding add up to the number. */
  lemma AddsUp(n: nat) returns (u: nat, l: nat)
    requires n < TWO_TO_64
    ensures n % TWO_TO_62 == 0x1_0000_0000 * u + l
    ensures u == 0x100_0000 * (n / 0x100_0000_0000_0000 % 64)
      + 0x1_0000 * ByteAt(n, 0x1_0000_0000_0000) + 0x100 * ByteAt(n, 0x100_0000_0000) + ByteAt(n, 0x1_0000_0000)
    ensures l == 0x100_0000 * ByteAt(n, 0x100_0000) + 0x1_0000 * ByteAt(n, 0x1_0000)
      + 0x100 * ByteAt(n, 0x100) + ByteAt(n, 1)
  {
    Upper(n);
    Lower(n);
    Halves(n);
    u, l := n % TWO_TO_62 / 0x1_0000_0000, n % 0x1_0000_0000;
  }

  lemma RoundTrip8(n: nat)
    requires TWO_TO_30 <= n < TWO_TO_64
    ensures var s := Encoded(n); Read(s[0] % 64, s[1..]) == n % TWO_TO_62
  {
    var s := Encoded(n);
    var u, l := AddsUp(n);
    ReadLong(s, u, l);
  }

  lemma ReadLong(s: seq<int>, u: nat, l: nat)
    requires |s| == 8 && IsBytes(s)
    requires u == 0x100_0000 * (s[0] % 64) + 0x1_0000 * s[1] + 0x100 * s[2] + s[3]
    requires l == 0x100_0000 * s[4] + 0x1_0000 * s[5] + 0x100 * s[6] + s[7]
    ensures Read(s[0] % 64, s[1..]) == 0x1_0000_0000 * u + l
  {
    assert s[1..] == [s[1], s[2], s[3], s[4], s[5], s[6], s[7]];
    Read7(s[0] % 64, s[1], s[2], s[3], s[4], s[5], s[6], s[7]);
  }

  lemma RoundTrip4(n: nat)
    requires TWO_TO_14 <= n < TWO_TO_30
    ensures var s := Encoded(n); Read(s[0] % 64, s[1..]) == n
  {
    var s := Encoded(n);
    Read3(s[0] % 64, s[1], s[2], s[3]);
    assert s[1..] == [s[1], s[2], s[3]];
    Join4(n);
  }

  lemma RoundTrip2(n: nat)
    requires TWO_TO_6 <= n < TWO_TO_14
    ensures var s := Encoded(n); Read(s[0] % 64, s[1..]) == n
  {
    var s := Encoded(n);
    Read1(s[0] % 64, s[1]);
    assert s[1..] == [s[1]];
  }

  /** Decoding gives back the number, and leaves what follows: of a number below 2^62 all of it,
      of a larger one the lowest 62 bits. */
  lemma RoundTrip(n: nat, rest: seq<int>)
    requires n < TWO_TO_64 && IsBytes(rest)
    ensures IsBytes(Encoded(n) + rest) && Decode(Encoded(n) + rest) == Decoded(|Encoded(n)|, n % TWO_TO_62)
  {
    var s := Encoded(n) + rest;
    var k := |Encoded(n)|;
    assert s[0] == Encoded(n)[0] && s[1..k] == Encoded(n)[1..];
    if n < TWO_TO_6 {
      assert Encoded(n)[1..] == [];
    } else if n < TWO_TO_14 {
      RoundTrip2(n);
    } else if n < TWO_TO_30 {
      RoundTrip4(n);
    } else {
      RoundTrip8(n);
    }
  }

  /** No encoding of a number is shorter than the one the encoder picks. */
  lemma Shortest(s: seq<int>)
    requires s != [] && IsBytes(s) && Decode(s).length > 0
    ensures Decode(s).value < TWO_TO_62 && |Encoded(Decode(s).value)| <= Decode(s).length <= |s|
  {
    var k := LengthOf(s[0]);
    if k == 1 {
      assert s[1..1] == [];
    } else if k == 2 {
      assert s[1..2] == [s[1]];
      Read1(s[0] % 64, s[1]);
    } else if k == 4 {
      assert s[1..4] == [s[1], s[2], s[3]];
      Read3(s[0] % 64, s[1], s[2], s[3]);
    } else {
      assert s[1..8] == [s[1], s[2], s[3], s[4], s[5], s[6], s[7]];
      Read7(s[0] % 64, s[1], s[2], s[3], s[4], s[5], s[6], s[7]);
    }
  }

  // ---------- the format ----------

  /** A number of several bytes, the most significant first. */
  ghost function BigEndian(s: seq<int>): int {
    if s == [] then 0 else 256 * BigEndian(s[..|s| - 1]) + s[|s| - 1]
  }

  ghost function Pow256(k: nat): nat {
    if k == 0 then 1 else 256 * Pow256(k - 1)
  }

  lemma {:induction false} ReadIsBigEndian(v: nat, s: seq<int>)
    requires IsBytes(s)
    ensures Read(v, s) == v * Pow256(|s|) + BigEndian(s)
  {
    if s != [] {
      var k := |s| - 1;
      ReadIsBigEndian(v, s[..k]);
      Times256(v, Pow256(k));
    }
  }

  lemma Times256(v: nat, p: nat)
    ensures 256 * (v * p) == v * (256 * p)
  {
  }

  lemma {:induction false} BigEndianHead(s: seq<int>)
    requires s != []
    ensures BigEndian(s) == s[0] * Pow256(|s| - 1) + BigEndian(s[1..])
  {
    var k := |s| - 1;
    if k == 0 {
      assert s[1..] == [] && s[..0] == [];
    } else {
      BigEndianHead(s[..k]);
      assert s[1..][..k - 1] == s[..k][1..] && s[1..][k - 1] == s[k];
      assert 256 * (s[0] * Pow256(k - 1)) == s[0] * (256 * Pow256(k - 1));
    }
  }

  lemma SplitByte(b: int, p: nat)
    ensures b * p == (b / 64 * 64) * p + b % 64 * p
  {
    assert b == b / 64 * 64 + b % 64;
    assert (b / 64 * 64 + b % 64) * p == (b / 64 * 64) * p + b % 64 * p;
  }

  /** What is decoded is the number in the first 1, 2, 4 or 8 bytes, without the top two bits, which say how many. */
  lemma DecodeMeans(s: seq<int>)
    requires s != [] && IsBytes(s)
    ensures var k := [1, 2, 4, 8][s[0] / 64];
      && (|s| < k ==> Decode(s).length == 0)
      && (|s| >= k ==>
        Decode(s).length == k && BigEndian(s[..k]) == (s[0] / 64 * 64) * Pow256(k - 1) + Decode(s).value)
  {
    var k := [1, 2, 4, 8][s[0] / 64];
    assert LengthOf(s[0]) == k;
    if |s| >= k {
      var h := s[..k];
      assert h[1..] == s[1..k] && IsBytes(h[1..]);
      BigEndianHead(h);
      ReadIsBigEndian(s[0] % 64, h[1..]);
      SplitByte(s[0], Pow256(k - 1));
    }
  }
}
