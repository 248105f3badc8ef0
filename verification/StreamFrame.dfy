/**
 Splitting a STREAM frame in two (picoquic_split_stream_frame in util.c, with the header
 parser of frames.c; section 19.8 of RFC 9000).
 */
module StreamFrame {
  import opened Options
  import opened Powers
  import opened Varint

  /** stream id, offset, length of the data, FIN bit, length of the header. */
  datatype Header = Header(streamId: nat, offset: nat, dataLength: nat, fin: bool, consumed: nat)

  predicate HasOffset(b: int) { b / 4 % 2 == 1 }
  predicate HasLength(b: int) { b / 2 % 2 == 1 }
  predicate HasFin(b: int) { b % 2 == 1 }

  /** The number at a place, if the place is inside; length 0 if it is not there in full. */
  function NumberAt(bytes: seq<int>, i: nat): Decoded
    requires IsBytes(bytes)
  {
    if |bytes| > i then Decode(bytes[i..]) else Decoded(0, 0)
  }

  function ParseStreamHeader(bytes: seq<int>): (r: Option<Header>)
    requires bytes != [] && IsBytes(bytes)
    ensures r.Some? ==> r.value.consumed + r.value.dataLength <= |bytes|
  {
    var b := bytes[0];
    var id := NumberAt(bytes, 1);
    var i := 1 + id.length;
    var offset := if HasOffset(b) then NumberAt(bytes, i) else Decoded(0, 0);
    var j := i + offset.length;
    if |bytes| < j || id.length == 0 || (HasOffset(b) && offset.length == 0) then None
    else if !HasLength(b) then Some(Header(id.value, offset.value, |bytes| - j, HasFin(b), j))
    else
      var len := NumberAt(bytes, j);
      var k := j + len.length;
      if len.length == 0 || |bytes| < k || k + len.value > |bytes| then None
      else Some(Header(id.value, offset.value, len.value, HasFin(b), k))
  }

  /** A frame of type 0x08 with a length, and an offset if asked for. */
  function FirstByte(withOffset: bool, fin: bool): int {
    0x08 + 0x02 + (if withOffset then 0x04 else 0) + (if fin then 0x01 else 0)
  }

  function Lead(id: nat, offset: nat, withOffset: bool, fin: bool): seq<int> {
    [FirstByte(withOffset, fin)] + Encoded(id) + if withOffset then Encoded(offset) else []
  }

  function Frame(id: nat, offset: nat, withOffset: bool, fin: bool, data: seq<int>): seq<int> {
    Lead(id, offset, withOffset, fin) + Encoded(|data|) + data
  }

  /** A header that has the numbers it should at the places it should. */
  lemma NumbersParse(bytes: seq<int>, id: Decoded, offset: Decoded, len: Decoded)
    requires bytes != [] && IsBytes(bytes) && HasLength(bytes[0]) && id.length > 0 && len.length > 0
    requires NumberAt(bytes, 1) == id && NumberAt(bytes, 1 + id.length + offset.length) == len
    requires if HasOffset(bytes[0]) then offset.length > 0 && NumberAt(bytes, 1 + id.length) == offset
             else offset == Decoded(0, 0)
    requires |bytes| == 1 + id.length + offset.length + len.length + len.value
    ensures ParseStreamHeader(bytes) ==
      Some(Header(id.value, offset.value, len.value, HasFin(bytes[0]), 1 + id.length + offset.length + len.length))
  {
  }

  /** What is left of a frame behind its first byte, its id and its offset. */
  lemma Rests(b: int, id: seq<int>, offset: seq<int>, len: seq<int>, data: seq<int>)
    ensures var f := [b] + id + offset + len + data;
      && f[1..] == id + (offset + (len + data)) && f[1 + |id|..] == offset + (len + data)
      && f[1 + |id| + |offset|..] == len + data && f[1 + |id| + |offset| + |len|..] == data
  {
  }

  lemma JoinedBytes(a: seq<int>, b: seq<int>)
    requires IsBytes(a) && IsBytes(b)
    ensures IsBytes(a + b)
  {
  }

  lemma PartsRead(f: seq<int>, b: int, id: seq<int>, offset: seq<int>, len: seq<int>, data: seq<int>,
                  x: Decoded, y: Decoded, z: Decoded)
    requires f == [b] + id + offset + len + data && 0 <= b < 256 && id != [] && len != []
    requires IsBytes(id) && IsBytes(offset) && IsBytes(len) && IsBytes(data)
    requires Decode(id + (offset + (len + data))) == x && Decode(len + data) == z
    requires offset != [] ==> Decode(offset + (len + data)) == y
    ensures IsBytes(f) && |f| == 1 + |id| + |offset| + |len| + |data| && f[0] == b && f[|f| - |data|..] == data
    ensures NumberAt(f, 1) == x && NumberAt(f, 1 + |id| + |offset|) == z
    ensures offset != [] ==> NumberAt(f, 1 + |id|) == y
  {
    JoinedParts(b, id, offset, len, data);
    JoinedBytes(len, data);
    JoinedBytes(offset, len + data);
    JoinedBytes(id, offset + (len + data));
    PartNumbers(f, b, id, offset, len, data, x, y, z);
  }

  /** A frame from its parts. */
  lemma PartsParse(b: int, id: seq<int>, offset: seq<int>, len: seq<int>, data: seq<int>, x: Decoded, y: Decoded,
                   z: Decoded)
    requires 0 <= b < 256 && HasLength(b) && IsBytes(id) && IsBytes(offset) && IsBytes(len) && IsBytes(data) && id != []
    requires len != []
    requires Decode(id + (offset + (len + data))) == x && Decode(len + data) == z
    requires x.length == |id| && y.length == |offset| && z == Decoded(|len|, |data|)
    requires if HasOffset(b) then offset != [] && Decode(offset + (len + data)) == y else y == Decoded(0, 0)
    ensures var f := [b] + id + offset + len + data;
      && IsBytes(f) && f[|f| - |data|..] == data
      && ParseStreamHeader(f) == Some(Header(x.value, y.value, |data|, HasFin(b), |f| - |data|))
  {
    var f := [b] + id + offset + len + data;
    PartsRead(f, b, id, offset, len, data, x, y, z);
    NumbersParse(f, x, y, z);
  }

  lemma JoinedParts(b: int, id: seq<int>, offset: seq<int>, len: seq<int>, data: seq<int>)
    requires 0 <= b < 256 && IsBytes(id) && IsBytes(offset) && IsBytes(len) && IsBytes(data)
    ensures IsBytes([b] + id + offset + len + data)
  {
    JoinedBytes([b], id);
    JoinedBytes([b] + id, offset);
    JoinedBytes([b] + id + offset, len);
    JoinedBytes([b] + id + offset + len, data);
  }

  lemma PartNumbers(f: seq<int>, b: int, id: seq<int>, offset: seq<int>, len: seq<int>, data: seq<int>,
                    x: Decoded, y: Decoded, z: Decoded)
    requires f == [b] + id + offset + len + data && IsBytes(f) && id != [] && len != []
    requires IsBytes(id + (offset + (len + data))) && Decode(id + (offset + (len + data))) == x
    requires IsBytes(len + data) && Decode(len + data) == z
    requires IsBytes(offset + (len + data)) && (offset != [] ==> Decode(offset + (len + data)) == y)
    ensures f[0] == b && f[|f| - |data|..] == data && NumberAt(f, 1) == x && NumberAt(f, 1 + |id| + |offset|) == z
    ensures offset != [] ==> NumberAt(f, 1 + |id|) == y
  {
    Rests(b, id, offset, len, data);
  }

  /** An encoding that decodes as it should, whatever follows it. */
  ghost predicate Codes(s: seq<int>, n: nat, rest: seq<int>)
    requires IsBytes(rest)
  {
    IsBytes(s) && s != [] && IsBytes(s + rest) && Decode(s + rest) == Decoded(|s|, n % TWO_TO_62)
  }

  lemma CodedPartsParse(b: int, a: seq<int>, o: seq<int>, c: seq<int>, data: seq<int>, id: nat, offset: nat)
    requires 0 <= b < 256 && HasLength(b) && IsBytes(data) && IsBytes(o)
    requires Codes(c, |data|, data) && |data| < TWO_TO_62 && IsBytes(c + data) && IsBytes(o + (c + data))
    requires id < TWO_TO_62
    requires Codes(a, id, o + (c + data))
    requires if HasOffset(b) then Codes(o, offset, c + data) else o == [] && offset == 0
    ensures Parsed([b] + a + o + c + data, id, offset, data, HasFin(b))
  {
    PartsParse(b, a, o, c, data, Decoded(|a|, id), Decoded(|o|, if HasOffset(b) then offset % TWO_TO_62 else 0),
               Decoded(|c|, |data|));
  }

  lemma EncodedCodes(n: nat, rest: seq<int>)
    requires n < TWO_TO_64 && IsBytes(rest)
    ensures Codes(Encoded(n), n, rest)
  {
    RoundTrip(n, rest);
  }

  lemma TailCodes(b: seq<int>, offset: nat, withOffset: bool, data: seq<int>)
    requires offset < TWO_TO_64 && |data| < TWO_TO_62 && IsBytes(data)
    requires b == if withOffset then Encoded(offset) else []
    ensures var c := Encoded(|data|);
      && Codes(c, |data|, data) && IsBytes(c + data) && IsBytes(b) && IsBytes(b + (c + data))
      && (withOffset ==> Codes(b, offset, c + data))
  {
    var c := Encoded(|data|);
    EncodedCodes(|data|, data);
    if withOffset {
      EncodedCodes(offset, c + data);
    } else {
      assert b + (c + data) == c + data;
    }
  }

  lemma FrameCodes(b: seq<int>, id: nat, offset: nat, withOffset: bool, data: seq<int>)
    requires offset < TWO_TO_64 && |data| < TWO_TO_62 && IsBytes(data)
    requires b == if withOffset then Encoded(offset) else []
    requires id < TWO_TO_62
    ensures var c := Encoded(|data|);
      && Codes(c, |data|, data) && IsBytes(c + data) && IsBytes(b) && IsBytes(b + (c + data))
      && Codes(Encoded(id), id, b + (c + data)) && (withOffset ==> Codes(b, offset, c + data))
  {
    TailCodes(b, offset, withOffset, data);
    EncodedCodes(id, b + (Encoded(|data|) + data));
  }

  lemma FrameIs(first: int, b: seq<int>, id: nat, offset: nat, withOffset: bool, fin: bool, data: seq<int>)
    requires first == FirstByte(withOffset, fin) && b == if withOffset then Encoded(offset) else []
    ensures Frame(id, offset, withOffset, fin, data) == [first] + Encoded(id) + b + Encoded(|data|) + data
  {
  }

  lemma FirstByteSays(withOffset: bool, fin: bool)
    ensures var b := FirstByte(withOffset, fin);
      0 <= b < 256 && HasLength(b) && HasFin(b) == fin && HasOffset(b) == withOffset
  {
  }

  /** Such a frame parses as what it was made from. */
  lemma FrameParses(id: nat, offset: nat, withOffset: bool, fin: bool, data: seq<int>)
    requires id < TWO_TO_62 && offset < TWO_TO_64 && |data| < TWO_TO_62 && IsBytes(data) && (withOffset || offset == 0)
    ensures Parsed(Frame(id, offset, withOffset, fin, data), id, offset, data, fin)
  {
    var first := FirstByte(withOffset, fin);
    var b := if withOffset then Encoded(offset) else [];
    FrameIs(first, b, id, offset, withOffset, fin, data);
    FirstByteSays(withOffset, fin);
    FrameCodes(b, id, offset, withOffset, data);
    CodedPartsParse(first, Encoded(id), b, Encoded(|data|), data, id, offset);
  }

  lemma OpenNumbersParse(bytes: seq<int>, id: Decoded, offset: Decoded)
    requires bytes != [] && IsBytes(bytes) && !HasLength(bytes[0]) && id.length > 0 && NumberAt(bytes, 1) == id
    requires if HasOffset(bytes[0]) then offset.length > 0 && NumberAt(bytes, 1 + id.length) == offset
             else offset == Decoded(0, 0)
    requires 1 + id.length + offset.length <= |bytes|
    ensures var j := 1 + id.length + offset.length;
      ParseStreamHeader(bytes) == Some(Header(id.value, offset.value, |bytes| - j, HasFin(bytes[0]), j))
  {
  }

  lemma OpenByteSays(withOffset: bool, fin: bool)
    ensures var b := 0x08 + (if withOffset then 4 else 0) + if fin then 1 else 0;
      0 <= b < 256 && !HasLength(b) && HasFin(b) == fin && HasOffset(b) == withOffset
  {
  }

  lemma OpenPartsParse(first: int, a: seq<int>, b: seq<int>, data: seq<int>, id: nat, offset: nat, withOffset: bool)
    requires 0 <= first < 256 && !HasLength(first) && HasOffset(first) == withOffset
    requires IsBytes(a) && IsBytes(b) && IsBytes(data) && a != [] && IsBytes(a + (b + data)) && id < TWO_TO_62
    requires Decode(a + (b + data)) == Decoded(|a|, id)
    requires if withOffset then b != [] && IsBytes(b + data) && Decode(b + data) == Decoded(|b|, offset % TWO_TO_62)
             else b == [] && offset == 0
    ensures var f := [first] + (a + (b + data));
      && IsBytes(f)
      && ParseStreamHeader(f) == Some(Header(id, offset % TWO_TO_62, |data|, HasFin(first), |f| - |data|))
  {
    var f := [first] + (a + (b + data));
    assert f[1..] == a + (b + data) && f[1 + |a|..] == b + data;
    OpenNumbersParse(f, Decoded(|a|, id), if withOffset then Decoded(|b|, offset % TWO_TO_62) else Decoded(0, 0));
  }

  lemma OpenCodes(b: seq<int>, id: nat, offset: nat, withOffset: bool, data: seq<int>)
    requires id < TWO_TO_64 && offset < TWO_TO_64 && IsBytes(data)
    requires b == if withOffset then Encoded(offset) else []
    ensures IsBytes(b) && IsBytes(b + data) && Codes(Encoded(id), id, b + data)
    ensures withOffset ==> Codes(b, offset, data)
  {
    if withOffset {
      EncodedCodes(offset, data);
    } else {
      assert b + data == data;
    }
    EncodedCodes(id, b + data);
  }

  lemma OpenFrameIsRead(first: int, id: nat, offset: nat, withOffset: bool, data: seq<int>)
    requires 0 <= first < 256 && !HasLength(first) && HasOffset(first) == withOffset
    requires id < TWO_TO_62 && offset < TWO_TO_64 && IsBytes(data) && (withOffset || offset == 0)
    ensures var f := [first] + (Encoded(id) + ((if withOffset then Encoded(offset) else []) + data));
      && IsBytes(f)
      && ParseStreamHeader(f) == Some(Header(id, offset % TWO_TO_62, |data|, HasFin(first), |f| - |data|))
  {
    var b := if withOffset then Encoded(offset) else [];
    OpenCodes(b, id, offset, withOffset, data);
    OpenPartsParse(first, Encoded(id), b, data, id, offset, withOffset);
  }

  /** A frame without a length goes on to the end. */
  lemma OpenFrameParses(id: nat, offset: nat, withOffset: bool, fin: bool, data: seq<int>)
    requires id < TWO_TO_62 && offset < TWO_TO_64 && IsBytes(data) && (withOffset || offset == 0)
    ensures var f := [0x08 + (if withOffset then 4 else 0) + if fin then 1 else 0]
                     + (Encoded(id) + ((if withOffset then Encoded(offset) else []) + data));
      IsBytes(f) && ParseStreamHeader(f) == Some(Header(id, offset % TWO_TO_62, |data|, fin, |f| - |data|))
  {
    OpenByteSays(withOffset, fin);
    OpenFrameIsRead(0x08 + (if withOffset then 4 else 0) + if fin then 1 else 0, id, offset, withOffset, data);
  }

  /** A frame says what it should. */
  ghost predicate Parsed(f: seq<int>, id: nat, offset: nat, data: seq<int>, fin: bool) {
    && IsBytes(f) && |f| > |data| && f[|f| - |data|..] == data
    && ParseStreamHeader(f) == Some(Header(id, offset % TWO_TO_62, |data|, fin, |f| - |data|))
  }

  // ---------- splitting ----------

  /** The header of a parsed frame is at least as long as the one written for it. */
  lemma LeadFits(bytes: seq<int>)
    requires bytes != [] && IsBytes(bytes) && ParseStreamHeader(bytes).Some?
    ensures var h := ParseStreamHeader(bytes).value;
      && h.streamId < TWO_TO_62 && h.offset < TWO_TO_62 && h.consumed <= |bytes|
      && |Lead(h.streamId, h.offset, h.offset != 0, false)| <= h.consumed
  {
    var h := ParseStreamHeader(bytes).value;
    Shortest(bytes[1..]);
    if HasOffset(bytes[0]) {
      Shortest(bytes[1 + NumberAt(bytes, 1).length..]);
    }
  }

  /** How much data the first frame gets, with x bytes left for it and its length. */
  function FirstLength(x: nat, dataLength: nat): nat
    requires 0 < x < TWO_TO_62
  {
    if x - VarintLen(x) >= dataLength then dataLength else x - VarintLen(x)
  }

  /** It is all the data, or as much as there is room for, but for a byte or two, and four from 2^30 on. */
  lemma FirstTakesAll(x: nat, dataLength: nat)
    requires 0 < x < TWO_TO_62
    ensures var n := FirstLength(x, dataLength);
      n == dataLength || x - (|Encoded(n)| + n) <= if x < TWO_TO_14 then 1 else if x < TWO_TO_30 then 2 else 4
  {
    EncodedLength(FirstLength(x, dataLength));
  }

  lemma FirstFits(x: nat, dataLength: nat)
    requires 0 < x < TWO_TO_62
    ensures var n := FirstLength(x, dataLength); n <= dataLength && |Encoded(n)| + n <= x
  {
    EncodedLength(FirstLength(x, dataLength));
  }

  /** Write a number behind what is there. */
  method AppendNumber(buf: array<int>, at: nat, max: nat, n: nat, ghost prefix: seq<int>) returns (at': nat)
    requires at + |Encoded(n)| <= max <= buf.Length && buf[..at] == prefix
    modifies buf
    ensures at' == at + |Encoded(n)| && buf[..at'] == prefix + Encoded(n)
    ensures forall i :: at' <= i < buf.Length ==> buf[i] == old(buf[i])
  {
    var len := VarintEncode(buf, at, max - at, n);
    EncodedLength(n);
    at' := at + len;
    assert buf[..at'] == buf[..at] + buf[at..at'];
  }

  method AppendData(buf: array<int>, at: nat, data: seq<int>, ghost prefix: seq<int>)
    requires at + |data| <= buf.Length && buf[..at] == prefix
    modifies buf
    ensures buf[..at + |data|] == prefix + data
    ensures forall i :: at + |data| <= i < buf.Length ==> buf[i] == old(buf[i])
  {
    forall i | 0 <= i < |data| {
      buf[at + i] := data[i];
    }
  }

  method WriteLead(buf: array<int>, max: nat, id: nat, offset: nat, withOffset: bool, fin: bool) returns (at: nat)
    requires |Lead(id, offset, withOffset, fin)| <= max <= buf.Length
    modifies buf
    ensures at == |Lead(id, offset, withOffset, fin)| && buf[..at] == Lead(id, offset, withOffset, fin)
    ensures forall i :: at <= i < buf.Length ==> buf[i] == old(buf[i])
  {
    ghost var first := [FirstByte(withOffset, fin)];
    buf[0] := FirstByte(withOffset, fin);
    at := AppendNumber(buf, 1, max, id, first);
    if withOffset {
      at := AppendNumber(buf, at, max, offset, first + Encoded(id));
    }
  }

  /** How much of the data goes into the first frame. */
  function HeadLength(h: Header, d: nat, buf1Max: nat): nat
    requires |Lead(h.streamId, h.offset, h.offset != 0, false)| < buf1Max < TWO_TO_62
  {
    FirstLength(buf1Max - |Lead(h.streamId, h.offset, h.offset != 0, false)|, d)
  }

  /** The first frame has the first part of the data, and FIN only if that is all. */
  ghost predicate FirstAs(f: seq<int>, h: Header, head: seq<int>, rest: seq<int>) {
    f == Frame(h.streamId, h.offset, h.offset != 0, h.fin && rest == [], head)
  }

  /** The first frame: as much as fits, and FIN if that is all. */
  method WriteFirst(buf: array<int>, max: nat, h: Header, data: seq<int>) returns (used: nat, n: nat)
    requires |Lead(h.streamId, h.offset, h.offset != 0, false)| < max <= buf.Length && max < TWO_TO_62
    modifies buf
    ensures n == HeadLength(h, |data|, max) <= |data|
    ensures used <= max && FirstAs(buf[..used], h, data[..n], data[n..])
    ensures forall i :: used <= i < buf.Length ==> buf[i] == old(buf[i])
  {
    var at := WriteLead(buf, max, h.streamId, h.offset, h.offset != 0, false);
    FirstFits(max - at, |data|);
    n := FirstLength(max - at, |data|);
    if n == |data| && h.fin {
      SetFin(buf, at, h.streamId, h.offset, h.offset != 0);
    }
    used := WriteBody(buf, at, max, data[..n], Lead(h.streamId, h.offset, h.offset != 0, h.fin && n == |data|));
  }

  method SetFin(buf: array<int>, at: nat, id: nat, offset: nat, withOffset: bool)
    requires at <= buf.Length && buf[..at] == Lead(id, offset, withOffset, false)
    modifies buf
    ensures buf[..at] == Lead(id, offset, withOffset, true)
    ensures forall i :: at <= i < buf.Length ==> buf[i] == old(buf[i])
  {
    ghost var tail := Encoded(id) + if withOffset then Encoded(offset) else [];
    assert Lead(id, offset, withOffset, false) == [FirstByte(withOffset, false)] + tail;
    buf[0] := FirstByte(withOffset, true);
    assert buf[..at] == [FirstByte(withOffset, true)] + tail;
    assert Lead(id, offset, withOffset, true) == [FirstByte(withOffset, true)] + tail;
  }

  /** The length and the data, behind the lead. */
  method WriteBody(buf: array<int>, at: nat, max: nat, data: seq<int>, ghost lead: seq<int>) returns (used: nat)
    requires at + |Encoded(|data|)| + |data| <= max <= buf.Length && buf[..at] == lead
    modifies buf
    ensures at <= used <= max && buf[..used] == lead + Encoded(|data|) + data
    ensures forall i :: used <= i < buf.Length ==> buf[i] == old(buf[i])
  {
    var at' := AppendNumber(buf, at, max, |data|, lead);
    AppendData(buf, at', data, lead + Encoded(|data|));
    used := at' + |data|;
  }

  /** Where a number of so many bytes ends, if it is written where there is room, and else left out. */
  function After(at: nat, max: nat, len: nat): (r: nat)
    requires at <= max
    ensures at <= r <= max
  {
    if at + len <= max then at + len else at
  }

  /** Where the second frame ends, with n bytes of data. */
  function SecondEnd(id: nat, offset: nat, n: nat, max: nat): nat
    requires 0 < max
  {
    EndOf(|Encoded(id)|, |Encoded(offset)|, |Encoded(n)|, n, max)
  }

  function EndOf(a: nat, b: nat, c: nat, n: nat, max: nat): nat
    requires 0 < max
  {
    After(After(After(1, max, a), max, b), max, c) + n
  }

  /** There is room for the whole frame. */
  predicate SecondFits(id: nat, offset: nat, n: nat, max: nat) {
    1 + |Encoded(id)| + |Encoded(offset)| + |Encoded(n)| + n <= max
  }

  /** A frame that there is no room for is cut short by a number, or overruns the buffer. */
  lemma CutShort(a: nat, b: nat, c: nat, n: nat, max: nat)
    requires 0 < a && 0 < b && 0 < c && 0 < max
    ensures 1 + a + b + c + n <= max ==> EndOf(a, b, c, n, max) == 1 + a + b + c + n
    ensures 1 + a + b + c + n > max ==> EndOf(a, b, c, n, max) < 1 + a + b + c + n || EndOf(a, b, c, n, max) > max
  {
  }

  lemma SomeBytes(n: nat)
    ensures |Encoded(n)| > 0
  {
    EncodedLength(n);
  }

  /** Write a number behind what is there, if there is room. */
  method TryNumber(buf: array<int>, at: nat, max: nat, n: nat, ghost prefix: seq<int>, ghost code: seq<int>)
      returns (at': nat)
    requires at <= max <= buf.Length && code == Encoded(n)
    modifies buf
    ensures at' == After(at, max, |code|)
    ensures forall i :: at' <= i < buf.Length ==> buf[i] == old(buf[i])
    ensures old(buf[..at]) == prefix && at + |code| <= max ==> buf[..at'] == prefix + code
  {
    SomeBytes(n);
    var len := VarintEncode(buf, at, max - at, n);
    at' := at + len;
    assert buf[..at'] == buf[..at] + buf[at..at'];
  }

  method WriteNumbers(buf: array<int>, max: nat, id: nat, offset: nat, n: nat, fin: bool,
                      ghost a: seq<int>, ghost b: seq<int>, ghost c: seq<int>) returns (at: nat)
    requires 0 < max <= buf.Length && a == Encoded(id) && b == Encoded(offset) && c == Encoded(n)
    modifies buf
    ensures at == After(After(After(1, max, |a|), max, |b|), max, |c|)
    ensures forall i :: at <= i < buf.Length ==> buf[i] == old(buf[i])
    ensures 1 + |a| + |b| + |c| <= max ==> buf[..at] == [FirstByte(true, fin)] + a + b + c
  {
    ghost var first := [FirstByte(true, fin)];
    buf[0] := FirstByte(true, fin);
    at := TryNumber(buf, 1, max, id, first, a);
    at := TryNumber(buf, at, max, offset, first + a, b);
    at := TryNumber(buf, at, max, n, first + a + b, c);
  }

  /** The second frame: the rest. */
  method WriteSecond(buf: array<int>, max: nat, id: nat, offset: nat, fin: bool, n: nat, data: seq<int>)
      returns (used: nat)
    requires 0 < max <= buf.Length && n == |data| && SecondEnd(id, offset, n, max) <= max
    modifies buf
    ensures used == SecondEnd(id, offset, n, max)
    ensures forall i :: used <= i < buf.Length ==> buf[i] == old(buf[i])
    ensures buf[..used] == Frame(id, offset, true, fin, data) <==> SecondFits(id, offset, n, max)
  {
    ghost var a, b, c := Encoded(id), Encoded(offset), Encoded(n);
    SomeBytes(id);
    SomeBytes(offset);
    SomeBytes(n);
    CutShort(|a|, |b|, |c|, n, max);
    var at := WriteNumbers(buf, max, id, offset, n, fin, a, b, c);
    AppendData(buf, at, data, buf[..at]);
    used := at + n;
    assert Frame(id, offset, true, fin, data) == [FirstByte(true, fin)] + a + b + c + data;
  }

  /** A length of 0 is taken to mean the rest of the input. */
  function DataLength(h: Header, size: nat): nat
    requires h.consumed <= size
  {
    if h.dataLength == 0 then size - h.consumed else h.dataLength
  }

  predicate SizesPass(h: Header, d: nat, buf1Max: nat, buf2Max: nat) {
    buf1Max > h.consumed && buf2Max > h.consumed && buf1Max + buf2Max - h.consumed - h.consumed > d
  }

  /** The second has the rest, if there is any, at an offset of its own. */
  ghost predicate SecondAs(f: seq<int>, h: Header, offset: nat, rest: seq<int>) {
    f == if rest == [] then [] else Frame(h.streamId, offset, true, h.fin, rest)
  }

  /** What is written of the second frame stays within its buffer, if the first has n bytes. */
  predicate SecondInside(h: Header, n: nat, d: nat, buf2Max: nat)
    requires 0 < buf2Max
  {
    n < d ==> SecondEnd(h.streamId, h.offset + n, d - n, buf2Max) <= buf2Max
  }

  /** The second frame is written as a whole. */
  predicate SecondWhole(h: Header, n: nat, d: nat, buf2Max: nat) {
    n < d ==> SecondFits(h.streamId, h.offset + n, d - n, buf2Max)
  }

  method WriteRest(buf: array<int>, max: nat, h: Header, n: nat, data: seq<int>) returns (used: nat)
    requires 0 < max <= buf.Length && n <= |data| && SecondInside(h, n, |data|, max)
    modifies buf
    ensures used <= max && (SecondAs(buf[..used], h, h.offset + n, data[n..]) <==> SecondWhole(h, n, |data|, max))
    ensures forall i :: used <= i < buf.Length ==> buf[i] == old(buf[i])
  {
    if n < |data| {
      used := WriteSecond(buf, max, h.streamId, h.offset + n, h.fin, |data| - n, data[n..]);
    } else {
      used := 0;
    }
  }

  /** What a split has to do: both frames with the data in two parts, the second exactly if there
      is room for all of it. */
  ghost predicate SplitAs(h: Header, data: seq<int>, n: nat, buf1: seq<int>, buf2: seq<int>, whole: bool)
    requires n <= |data|
  {
    FirstAs(buf1, h, data[..n], data[n..]) && (SecondAs(buf2, h, h.offset + n, data[n..]) <==> whole)
  }

  method WriteBoth(buf1: array<int>, buf1Max: nat, buf2: array<int>, buf2Max: nat, h: Header, data: seq<int>,
                   ghost n: nat, ghost whole: bool)
    returns (used1: nat, used2: nat)
    requires |Lead(h.streamId, h.offset, h.offset != 0, false)| < buf1Max <= buf1.Length && buf1Max < TWO_TO_62
    requires n == HeadLength(h, |data|, buf1Max) <= |data|
    requires 0 < buf2Max <= buf2.Length && buf1 != buf2 && SecondInside(h, n, |data|, buf2Max)
    requires whole <==> SecondWhole(h, n, |data|, buf2Max)
    modifies buf1, buf2
    ensures used1 <= buf1Max && used2 <= buf2Max && SplitAs(h, data, n, buf1[..used1], buf2[..used2], whole)
    ensures forall i :: used1 <= i < buf1.Length ==> buf1[i] == old(buf1[i])
    ensures forall i :: used2 <= i < buf2.Length ==> buf2[i] == old(buf2[i])
  {
    var n';
    used1, n' := WriteFirst(buf1, buf1Max, h, data);
    used2 := WriteRest(buf2, buf2Max, h, n', data);
  }

  /** What a split means to who reads the frames.  The first is of the same stream, at the same
      offset, with the first part of the data. */
  lemma FirstMeans(f: seq<int>, h: Header, head: seq<int>, rest: seq<int>)
    requires FirstAs(f, h, head, rest) && IsBytes(head) && |head| < TWO_TO_62 && h.streamId < TWO_TO_62
    requires h.offset < TWO_TO_62
    ensures Parsed(f, h.streamId, h.offset, head, h.fin && rest == [])
    ensures f[0] == (if h.offset != 0 then 0x0E else 0x0A) + if h.fin && rest == [] then 1 else 0
  {
    FrameParses(h.streamId, h.offset, h.offset != 0, h.fin && rest == [], head);
  }

  /** The second, if there is one, is at its offset, with the rest of the data. */
  lemma SecondMeans(f: seq<int>, h: Header, offset: nat, rest: seq<int>)
    requires SecondAs(f, h, offset, rest) && IsBytes(rest) && |rest| < TWO_TO_62 && rest != []
    requires h.streamId < TWO_TO_62 && offset < TWO_TO_64
    ensures Parsed(f, h.streamId, offset, rest, h.fin)
    ensures f[0] == 0x0E + if h.fin then 1 else 0
  {
    FrameParses(h.streamId, offset, true, h.fin, rest);
  }

  /** The offset read is the offset meant exactly if that is below 2^62, as section 19.8 of
      RFC 9000 demands. */
  lemma OffsetRight(f: seq<int>, id: nat, offset: nat, data: seq<int>, fin: bool)
    requires Parsed(f, id, offset, data, fin)
    ensures ParseStreamHeader(f).value.offset == offset <==> offset < TWO_TO_62
  {
  }

  /** A frame with an explicit length of 0 is split as if what follows it were its data. */
  lemma EmptyFrameTakesWhatFollows()
    ensures var bytes := [0x0A, 0, 0, 7];
      && IsBytes(bytes) && ParseStreamHeader(bytes) == Some(Header(0, 0, 0, false, 3))
      && DataLength(Header(0, 0, 0, false, 3), |bytes|) == 1
  {
    var bytes := [0x0A, 0, 0, 7];
    assert bytes[1..][1..1] == [] && bytes[2..][1..1] == [];
    assert Decode(bytes[1..]) == Decoded(1, 0) && Decode(bytes[2..]) == Decoded(1, 0);
  }

  /** That is the only case where it is wrong. */
  lemma DataLengthRight(h: Header, size: nat)
    requires h.consumed <= size
    ensures DataLength(h, size) == h.dataLength <==> h.dataLength > 0 || h.consumed == size
  {
  }

  /** A frame that parses and whose sizes pass the test. */
  predicate Splits(bytes: seq<int>, buf1Max: nat, buf2Max: nat)
    requires bytes != [] && IsBytes(bytes)
  {
    var parsed := ParseStreamHeader(bytes);
    parsed.Some? && SizesPass(parsed.value, DataLength(parsed.value, |bytes|), buf1Max, buf2Max)
  }

  lemma SplitsLead(bytes: seq<int>, buf1Max: nat, buf2Max: nat)
    requires bytes != [] && IsBytes(bytes) && Splits(bytes, buf1Max, buf2Max)
    ensures var h := ParseStreamHeader(bytes).value;
      |Lead(h.streamId, h.offset, h.offset != 0, false)| < buf1Max && 0 < buf2Max
  {
    LeadFits(bytes);
  }

  /** How the data is split. */
  function HeadOf(bytes: seq<int>, buf1Max: nat, buf2Max: nat): (n: nat)
    requires bytes != [] && IsBytes(bytes) && buf1Max < TWO_TO_62 && Splits(bytes, buf1Max, buf2Max)
    ensures n <= DataLength(ParseStreamHeader(bytes).value, |bytes|)
  {
    SplitsLead(bytes, buf1Max, buf2Max);
    var h := ParseStreamHeader(bytes).value;
    HeadLength(h, DataLength(h, |bytes|), buf1Max)
  }

  /** What the size test leaves to the caller: that the second frame does not overrun its buffer. */
  predicate Inside(bytes: seq<int>, buf1Max: nat, buf2Max: nat)
    requires bytes != [] && IsBytes(bytes) && buf1Max < TWO_TO_62 && Splits(bytes, buf1Max, buf2Max)
  {
    var h := ParseStreamHeader(bytes).value;
    SecondInside(h, HeadOf(bytes, buf1Max, buf2Max), DataLength(h, |bytes|), buf2Max)
  }

  /** That there is room for all of it. */
  predicate Whole(bytes: seq<int>, buf1Max: nat, buf2Max: nat)
    requires bytes != [] && IsBytes(bytes) && buf1Max < TWO_TO_62 && Splits(bytes, buf1Max, buf2Max)
  {
    var h := ParseStreamHeader(bytes).value;
    SecondWhole(h, HeadOf(bytes, buf1Max, buf2Max), DataLength(h, |bytes|), buf2Max)
  }

  lemma ReadyToWrite(bytes: seq<int>, h: Header, buf1Max: nat, buf2Max: nat)
    requires bytes != [] && IsBytes(bytes) && buf1Max < TWO_TO_62 && ParseStreamHeader(bytes) == Some(h)
    requires Splits(bytes, buf1Max, buf2Max) && Inside(bytes, buf1Max, buf2Max)
    ensures |Lead(h.streamId, h.offset, h.offset != 0, false)| < buf1Max && 0 < buf2Max
    ensures var d, n := DataLength(h, |bytes|), HeadOf(bytes, buf1Max, buf2Max);
      && n == HeadLength(h, d, buf1Max) <= d && h.consumed + d <= |bytes| && SecondInside(h, n, d, buf2Max)
      && (Whole(bytes, buf1Max, buf2Max) <==> SecondWhole(h, n, d, buf2Max))
  {
    SplitsLead(bytes, buf1Max, buf2Max);
  }

  method SplitParsed(bytes: seq<int>, h: Header, d: nat, buf1: array<int>, buf1Max: nat, buf2: array<int>, buf2Max: nat,
                     ghost n: nat, ghost whole: bool)
    returns (ret: int, used1: nat, used2: nat)
    requires buf1Max <= buf1.Length && buf2Max <= buf2.Length && buf1 != buf2 && buf1Max < TWO_TO_62 && 0 < buf2Max
    requires |Lead(h.streamId, h.offset, h.offset != 0, false)| < buf1Max && h.consumed + d <= |bytes|
    requires n == HeadLength(h, d, buf1Max) <= d && SecondInside(h, n, d, buf2Max)
    requires (whole <==> SecondWhole(h, n, d, buf2Max))
    modifies buf1, buf2
    ensures ret == h.consumed + d && used1 <= buf1Max && used2 <= buf2Max
    ensures SplitAs(h, bytes[h.consumed..ret], n, buf1[..used1], buf2[..used2], whole)
    ensures forall i :: used1 <= i < buf1.Length ==> buf1[i] == old(buf1[i])
    ensures forall i :: used2 <= i < buf2.Length ==> buf2[i] == old(buf2[i])
  {
    ret := h.consumed + d;
    used1, used2 := WriteBoth(buf1, buf1Max, buf2, buf2Max, h, bytes[h.consumed..ret], n, whole);
  }

  method SplitStreamFrame(bytes: seq<int>, buf1: array<int>, buf1Max: nat, buf2: array<int>, buf2Max: nat)
    returns (ret: int, used1: nat, used2: nat)
    requires bytes != [] && IsBytes(bytes) && |bytes| < TWO_TO_62
    requires buf1Max <= buf1.Length && buf2Max <= buf2.Length && buf1 != buf2 && buf1Max < TWO_TO_62
    requires Splits(bytes, buf1Max, buf2Max) ==> Inside(bytes, buf1Max, buf2Max)
    modifies buf1, buf2
    ensures ret == -1 <==> !Splits(bytes, buf1Max, buf2Max)
    ensures ParseStreamHeader(bytes).None? ==> ret == -1
    ensures ParseStreamHeader(bytes).Some? ==>
      var h := ParseStreamHeader(bytes).value;
      var d := if h.dataLength == 0 then |bytes| - h.consumed else h.dataLength;
      ret == -1 <==> buf1Max <= h.consumed || buf2Max <= h.consumed || buf1Max + buf2Max - 2 * h.consumed <= d
    ensures ret == -1 ==> used1 == used2 == 0
    ensures forall i :: used1 <= i < buf1.Length ==> buf1[i] == old(buf1[i])
    ensures forall i :: used2 <= i < buf2.Length ==> buf2[i] == old(buf2[i])
    ensures ret != -1 ==>
      var h := ParseStreamHeader(bytes).value;
      var d := DataLength(h, |bytes|);
      && ret == h.consumed + d && used1 <= buf1Max && used2 <= buf2Max
      && SplitAs(h, bytes[h.consumed..ret], HeadOf(bytes, buf1Max, buf2Max), buf1[..used1], buf2[..used2],
                 Whole(bytes, buf1Max, buf2Max))
  {
    var parsed := ParseStreamHeader(bytes);
    used1, used2 := 0, 0;
    if parsed == None {
      return -1, 0, 0;
    }
    var h := parsed.value;
    var d := DataLength(h, |bytes|);
    if !SizesPass(h, d, buf1Max, buf2Max) {
      return -1, 0, 0;
    }
    ReadyToWrite(bytes, h, buf1Max, buf2Max);
    ret, used1, used2 := SplitParsed(bytes, h, d, buf1, buf1Max, buf2, buf2Max,
                                     HeadOf(bytes, buf1Max, buf2Max), Whole(bytes, buf1Max, buf2Max));
  }

  // ---------- how large the second buffer has to be ----------

  /** With room for the whole of it, the second frame does not overrun its buffer. */
  lemma WholeIsInside(bytes: seq<int>, buf1Max: nat, buf2Max: nat)
    requires bytes != [] && IsBytes(bytes) && buf1Max < TWO_TO_62 && Splits(bytes, buf1Max, buf2Max)
    requires Whole(bytes, buf1Max, buf2Max)
    ensures Inside(bytes, buf1Max, buf2Max)
  {
    var h := ParseStreamHeader(bytes).value;
    WholeInside(h, HeadOf(bytes, buf1Max, buf2Max), DataLength(h, |bytes|), buf2Max);
  }

  lemma WholeInside(h: Header, n: nat, d: nat, max: nat)
    requires 0 < max && SecondWhole(h, n, d, max)
    ensures SecondInside(h, n, d, max)
  {
    if n < d {
      SomeBytes(h.streamId);
      SomeBytes(h.offset + n);
      SomeBytes(d - n);
      CutShort(|Encoded(h.streamId)|, |Encoded(h.offset + n)|, |Encoded(d - n)|, d - n, max);
    }
  }

  /** In a buffer as long as the frame was, there is room exactly if the new numbers take no more
      than the old header and the data that went into the first frame; so always if 16 bytes did. */
  lemma FrameSizedBuffer(bytes: seq<int>, buf1Max: nat, buf2Max: nat)
    requires bytes != [] && IsBytes(bytes) && buf1Max < TWO_TO_62 && Splits(bytes, buf1Max, buf2Max)
    requires var h := ParseStreamHeader(bytes).value; buf2Max == h.consumed + DataLength(h, |bytes|)
    ensures var h := ParseStreamHeader(bytes).value;
      var d, n := DataLength(h, |bytes|), HeadOf(bytes, buf1Max, buf2Max);
      && (Whole(bytes, buf1Max, buf2Max) <==>
           n == d || 1 + |Encoded(h.streamId)| + |Encoded(h.offset + n)| + |Encoded(d - n)| <= h.consumed + n)
      && (n >= 16 ==> Whole(bytes, buf1Max, buf2Max))
  {
    LeadFits(bytes);
    var h := ParseStreamHeader(bytes).value;
    SizedFits(h, HeadOf(bytes, buf1Max, buf2Max), DataLength(h, |bytes|));
  }

  lemma SizedFits(h: Header, n: nat, d: nat)
    requires n <= d && |Lead(h.streamId, h.offset, h.offset != 0, false)| <= h.consumed
    ensures SecondWhole(h, n, d, h.consumed + d) <==>
      n == d || 1 + |Encoded(h.streamId)| + |Encoded(h.offset + n)| + |Encoded(d - n)| <= h.consumed + n
    ensures n >= 16 ==> SecondWhole(h, n, d, h.consumed + d)
  {
    AtMostEight(h.offset + n);
    AtMostEight(d - n);
  }

  lemma AtMostEight(n: nat)
    ensures |Encoded(n)| <= 8
  {
  }

  /** The size test alone does not do: here nothing fits into the first frame, and the second takes
      two bytes more than the frame had. */
  lemma SecondOverruns()
    ensures var bytes := [0x08, 0, 7, 7, 7];
      && IsBytes(bytes) && ParseStreamHeader(bytes) == Some(Header(0, 0, 3, false, 2)) && Splits(bytes, 3, 5)
      && !Inside(bytes, 3, 5) && SecondEnd(0, 0, 3, 5) == 7
  {
    var bytes := [0x08, 0, 7, 7, 7];
    assert bytes[1..][1..1] == [];
    assert Decode(bytes[1..]) == Decoded(1, 0);
  }

  /** And a frame can stay within its buffer without being whole: its offset is left out. */
  lemma SecondLosesOffset()
    ensures SecondEnd(0, 16384, 2, 5) == 5 && !SecondFits(0, 16384, 2, 5)
  {
  }
}
