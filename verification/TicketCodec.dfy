/**
 Session tickets as bytes (ticket_store.c): the time in 8 bytes, and the server name, the
 protocol and the ticket, each behind its length in 2 bytes.
 */
module TicketCodec {
  import opened Powers
  import opened Varint

  datatype Ticket = Ticket(timeValidUntil: nat, sni: seq<int>, alpn: seq<int>, body: seq<int>)

  /** The fields have the widths of their C types. */
  predicate Sized(t: Ticket) {
    && t.timeValidUntil < TWO_TO_64 && |t.sni| < TWO_TO_16 && |t.alpn| < TWO_TO_16 && |t.body| < TWO_TO_16
    && IsBytes(t.sni) && IsBytes(t.alpn) && IsBytes(t.body)
  }

  function Format16(n: nat): (r: seq<int>)
    ensures |r| == 2 && IsBytes(r)
  {
    [ByteAt(n, 0x100), ByteAt(n, 1)]
  }

  function Format32(n: nat): (r: seq<int>)
    ensures |r| == 4 && IsBytes(r)
  {
    [ByteAt(n, 0x100_0000), ByteAt(n, 0x1_0000), ByteAt(n, 0x100), ByteAt(n, 1)]
  }

  function Format64(n: nat): (r: seq<int>)
    ensures |r| == 8 && IsBytes(r)
  {
    Format32(n / 0x1_0000_0000) + Format32(n)
  }

  function Parse16(s: seq<int>): nat
    requires |s| >= 2 && IsBytes(s)
  {
    0x100 * s[0] + s[1]
  }

  function Parse32(s: seq<int>): nat
    requires |s| >= 4 && IsBytes(s)
  {
    0x100_0000 * s[0] + 0x1_0000 * s[1] + 0x100 * s[2] + s[3]
  }

  function Parse64(s: seq<int>): nat
    requires |s| >= 8 && IsBytes(s)
  {
    0x1_0000_0000 * Parse32(s) + Parse32(s[4..])
  }

  /** The most significant byte comes first. */
  lemma ParsesBigEndian(s: seq<int>)
    requires IsBytes(s)
    ensures |s| >= 2 ==> Parse16(s) == BigEndian(s[..2])
    ensures |s| >= 4 ==> Parse32(s) == BigEndian(s[..4])
    ensures |s| >= 8 ==> Parse64(s) == BigEndian(s[..8])
  {
    if |s| >= 2 {
      Pair(s, 2);
    }
    if |s| >= 4 {
      Pair(s, 4);
      assert s[..4][..2] == s[..2];
    }
    if |s| >= 8 {
      Pair(s, 6);
      Pair(s, 8);
    }
  }

  lemma Pair(s: seq<int>, k: nat)
    requires 2 <= k <= |s|
    ensures BigEndian(s[..k]) == 0x1_0000 * BigEndian(s[..k - 2]) + 0x100 * s[k - 2] + s[k - 1]
  {
    assert s[..k][..k - 1] == s[..k - 1] && s[..k - 1][..k - 2] == s[..k - 2];
    assert BigEndian(s[..k]) == 256 * BigEndian(s[..k - 1]) + s[k - 1];
  }

  lemma RoundTrip16(n: nat, rest: seq<int>)
    requires n < TWO_TO_16 && IsBytes(rest)
    ensures IsBytes(Format16(n) + rest) && Parse16(Format16(n) + rest) == n
  {
  }

  lemma RoundTrip32(n: nat, rest: seq<int>)
    requires IsBytes(rest)
    ensures IsBytes(Format32(n) + rest) && Parse32(Format32(n) + rest) == n % 0x1_0000_0000
  {
    Lower(n);
  }

  lemma RoundTrip64(n: nat, rest: seq<int>)
    requires n < TWO_TO_64 && IsBytes(rest)
    ensures IsBytes(Format64(n) + rest) && Parse64(Format64(n) + rest) == n
  {
    var h := n / 0x1_0000_0000;
    RoundTrip32(n, rest);
    RoundTrip32(h, Format32(n) + rest);
    var s := Format64(n) + rest;
    assert s == Format32(h) + (Format32(n) + rest);
    assert s[4..] == Format32(n) + rest;
  }

  // ---------- tickets ----------

  function Serialized(t: Ticket): seq<int> {
    Format64(t.timeValidUntil) + Format16(|t.sni|) + t.sni + Format16(|t.alpn|) + t.alpn + Format16(|t.body|) + t.body
  }

  datatype Result = Ok(ticket: Ticket, consumed: nat) | Invalid

  /** A field is only looked at while more bytes are there than were required so far; else its
      length stays 0, and so does the time. */
  function Deserialize(bytes: seq<int>): Result
    requires IsBytes(bytes)
  {
    var max := |bytes|;
    var more := 14 < max;
    var time := if more then Parse64(bytes) else 0;
    var a := if more then Parse16(bytes[8..]) else 0;
    var moreA := 14 + a < max;
    var b := if moreA then Parse16(bytes[10 + a..]) else 0;
    var moreB := 14 + a + b < max;
    var c := if moreB then Parse16(bytes[12 + a + b..]) else 0;
    if 14 + a + b + c > max then Invalid
    else Ok(Ticket(time, bytes[10..10 + a], if moreA then bytes[12 + a..12 + a + b] else [],
                   if moreB then bytes[14 + a + b..14 + a + b + c] else []), 14 + a + b + c)
  }

  /** Where the fields of a serialized ticket are. */
  lemma Fields(t: Ticket)
    ensures var s := Serialized(t); var a, b, c := |t.sni|, |t.alpn|, |t.body|;
      && |s| == 14 + a + b + c && s[10..10 + a] == t.sni && s[12 + a..12 + a + b] == t.alpn && s[14 + a + b..] == t.body
  {
  }

  lemma Behind(a: seq<int>, b: seq<int>)
    ensures (a + b)[|a|..] == b
  {
  }

  /** What follows each field of a sequence of them. */
  lemma Regroup(a: seq<int>, b: seq<int>, c: seq<int>, d: seq<int>, e: seq<int>, f: seq<int>, g: seq<int>)
    ensures var s := a + b + c + d + e + f + g;
      && s == a + (b + (c + (d + (e + (f + g))))) && s[|a|..] == b + (c + (d + (e + (f + g))))
      && s[|a| + |b| + |c|..] == d + (e + (f + g)) && s[|a| + |b| + |c| + |d| + |e|..] == f + g
  {
    var s := a + b + c + d + e + f + g;
    assert s == a + (b + (c + (d + (e + (f + g)))));
    Behind(a, b + (c + (d + (e + (f + g)))));
    assert s == (a + b + c) + (d + (e + (f + g)));
    Behind(a + b + c, d + (e + (f + g)));
    assert s == (a + b + c + d + e) + (f + g);
    Behind(a + b + c + d + e, f + g);
  }

  lemma BytesFollow(t: Ticket, r0: seq<int>, r1: seq<int>, r2: seq<int>)
    requires r2 == t.body && r1 == t.alpn + (Format16(|t.body|) + r2) && r0 == t.sni + (Format16(|t.alpn|) + r1)
    ensures Sized(t) ==> IsBytes(r0) && IsBytes(r1) && IsBytes(r2) && IsBytes(Serialized(t))
  {
  }

  lemma Rests(t: Ticket) returns (r0: seq<int>, r1: seq<int>, r2: seq<int>)
    ensures var s := Serialized(t); var a, b := |t.sni|, |t.alpn|;
      && s == Format64(t.timeValidUntil) + (Format16(a) + r0)
      && s[8..] == Format16(a) + r0 && s[10 + a..] == Format16(b) + r1 && s[12 + a + b..] == Format16(|t.body|) + r2
    ensures Sized(t) ==> IsBytes(r0) && IsBytes(r1) && IsBytes(r2) && IsBytes(Serialized(t))
  {
    r2 := t.body;
    r1 := t.alpn + (Format16(|t.body|) + r2);
    r0 := t.sni + (Format16(|t.alpn|) + r1);
    Regroup(Format64(t.timeValidUntil), Format16(|t.sni|), t.sni, Format16(|t.alpn|), t.alpn, Format16(|t.body|), r2);
    BytesFollow(t, r0, r1, r2);
  }

  /** What is read back. */
  lemma Reads(t: Ticket)
    requires Sized(t)
    ensures var s := Serialized(t); var a, b := |t.sni|, |t.alpn|;
      && IsBytes(s) && |s| == 14 + a + b + |t.body|
      && Parse64(s) == t.timeValidUntil && Parse16(s[8..]) == a
      && Parse16(s[10 + a..]) == b && Parse16(s[12 + a + b..]) == |t.body|
  {
    Fields(t);
    var r0, r1, r2 := Rests(t);
    RoundTrip16(|t.sni|, r0);
    RoundTrip64(t.timeValidUntil, Format16(|t.sni|) + r0);
    RoundTrip16(|t.alpn|, r1);
    RoundTrip16(|t.body|, r2);
  }

  /** A ticket survives, with all bytes consumed, exactly if one of its fields is not empty or its
      time is 0: with nothing in it, the bytes are too few for even the time to be read. */
  lemma TicketRoundTrip(t: Ticket)
    requires Sized(t)
    ensures IsBytes(Serialized(t))
    ensures Deserialize(Serialized(t)) == Ok(t, |Serialized(t)|) <==>
      t.sni != [] || t.alpn != [] || t.body != [] || t.timeValidUntil == 0
  {
    Reads(t);
    Fields(t);
    ReadBack(Serialized(t), t);
  }

  lemma ReadBack(s: seq<int>, t: Ticket)
    requires IsBytes(s) && |s| == 14 + |t.sni| + |t.alpn| + |t.body|
    requires Parse64(s) == t.timeValidUntil && Parse16(s[8..]) == |t.sni|
    requires Parse16(s[10 + |t.sni|..]) == |t.alpn| && Parse16(s[12 + |t.sni| + |t.alpn|..]) == |t.body|
    requires s[10..10 + |t.sni|] == t.sni && s[12 + |t.sni|..12 + |t.sni| + |t.alpn|] == t.alpn
    requires s[14 + |t.sni| + |t.alpn|..] == t.body
    ensures Deserialize(s) == Ok(t, |s|) <==> t.sni != [] || t.alpn != [] || t.body != [] || t.timeValidUntil == 0
  {
  }

  /** So it does not always: an empty ticket loses its time. */
  lemma EmptyTicketLosesTime()
    ensures var t := Ticket(1, [], [], []);
      Sized(t) && IsBytes(Serialized(t)) && Deserialize(Serialized(t)) == Ok(Ticket(0, [], [], []), 14)
  {
    Reads(Ticket(1, [], [], []));
  }

  /** Copy into a buffer behind what is there. */
  method Append(bytes: array<int>, at: nat, data: seq<int>, ghost prefix: seq<int>) returns (at': nat)
    requires at + |data| <= bytes.Length && bytes[..at] == prefix
    modifies bytes
    ensures at' == at + |data| && bytes[..at'] == prefix + data && bytes[at'..] == old(bytes[at'..])
  {
    forall i | 0 <= i < |data| {
      bytes[at + i] := data[i];
    }
    at' := at + |data|;
    assert bytes[..at'] == prefix + data;
  }

  method SerializeTicket(t: Ticket, bytes: array<int>, bytesMax: nat) returns (ok: bool, consumed: nat)
    requires bytesMax <= bytes.Length
    modifies bytes
    ensures ok <==> |Serialized(t)| <= bytesMax
    ensures ok ==> consumed == |Serialized(t)| && bytes[..consumed] == Serialized(t)
    ensures !ok ==> consumed == 0 && bytes[..] == old(bytes[..])
  {
    Fields(t);
    if 8 + 2 + 2 + 2 + |t.sni| + |t.alpn| + |t.body| > bytesMax {
      return false, 0;
    }
    ok := true;
    ghost var p := Format64(t.timeValidUntil);
    consumed := Append(bytes, 0, Format64(t.timeValidUntil), []);
    consumed := Append(bytes, consumed, Format16(|t.sni|), p);
    consumed := Append(bytes, consumed, t.sni, p + Format16(|t.sni|));
    ghost var q := p + Format16(|t.sni|) + t.sni;
    consumed := Append(bytes, consumed, Format16(|t.alpn|), q);
    consumed := Append(bytes, consumed, t.alpn, q + Format16(|t.alpn|));
    ghost var r := q + Format16(|t.alpn|) + t.alpn;
    consumed := Append(bytes, consumed, Format16(|t.body|), r);
    consumed := Append(bytes, consumed, t.body, r + Format16(|t.body|));
  }
}
