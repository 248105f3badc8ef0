/**
 Writing new frames into a packet (scheduler_write_new_frames in sender.c).

 Frames cut out of split packets go first, then reservations put off earlier, then new
 reservations.  Plugins are not trusted: what one answers to a request to write is an input.
 */
module FrameWriter {
  import opened Collections
  import opened Options
  import opened PluginSlots

  /** A frame to send again; without a base there is nothing to copy. */
  datatype Iovec = Iovec(len: nat, base: Option<seq<int>>)

  /** What a plugin answers: a code, the number of bytes it claims, whether they need to be
      retransmitted, and what is in the space it was given. */
  datatype Answer = Answer(ret: int, dataBytes: nat, isRetransmittable: bool, space: seq<int>)

  /** PICOQUIC_MISCCODE_RETRY_NXT_PKT. */
  const RETRY_NXT_PKT: int := 0x801

  /** A frame in the packet: which reservation, where, how long. */
  datatype PluginFrame = PluginFrame(slot: Slot, offset: nat, bytes: nat)

  /** What there is of the packet so far, and what became of the reservations. */
  datatype Writing = Writing(
    out: seq<int>,
    frames: seq<PluginFrame>,
    retried: seq<Slot>,
    notified: seq<Slot>,
    inFlight: map<int, nat>,
    isPureAck: bool,
    isCongestionControlled: bool,
    ret: int)

  /** Answers fill exactly the space they were given. */
  ghost predicate Confined(answer: Slot -> Answer) {
    forall s :: |answer(s).space| == s.nbBytes
  }

  predicate Accepted(a: Answer, s: Slot) {
    a.ret == 0 && 0 < a.dataBytes <= s.nbBytes
  }

  function InFlight(m: map<int, nat>, plugin: int): nat {
    if plugin in m then m[plugin] else 0
  }

  /** One reservation: into the packet, put off to the next packet, or given up with notice. */
  function WriteOne(w: Writing, s: Slot, a: Answer, payloadOffset: nat): Writing
    requires |a.space| == s.nbBytes
  {
    if Accepted(a, s) then
      w.(out := w.out + a.space[..a.dataBytes],
         frames := w.frames + [PluginFrame(s, payloadOffset + |w.out|, a.dataBytes)],
         inFlight := w.inFlight[s.plugin := InFlight(w.inFlight, s.plugin) + a.dataBytes],
         isPureAck := w.isPureAck && !a.isRetransmittable,
         isCongestionControlled := w.isCongestionControlled || s.isCongestionControlled,
         ret := 0)
    else if a.ret == RETRY_NXT_PKT then
      w.(retried := w.retried + [s], ret := 0)
    else
      w.(notified := w.notified + [s], ret := a.ret)
  }

  /** Several, one after the other. */
  ghost function WriteAll(w: Writing, slots: seq<Slot>, answer: Slot -> Answer, payloadOffset: nat): Writing
    requires Confined(answer)
    decreases |slots|
  {
    if slots == [] then w
    else
      var k := |slots| - 1;
      WriteOne(WriteAll(w, slots[..k], answer, payloadOffset), slots[k], answer(slots[k]), payloadOffset)
  }

  function SlotsOf(frames: seq<PluginFrame>): seq<Slot> {
    if frames == [] then [] else SlotsOf(frames[..|frames| - 1]) + [frames[|frames| - 1].slot]
  }

  /** Where the reservations are. */
  ghost function Settled(w: Writing): multiset<Slot> {
    multiset(SlotsOf(w.frames)) + multiset(w.retried) + multiset(w.notified)
  }

  lemma WriteOneSettles(w: Writing, s: Slot, a: Answer, o: nat)
    requires |a.space| == s.nbBytes
    ensures Settled(WriteOne(w, s, a, o)) == Settled(w) + multiset{s}
    ensures |w.out| <= |WriteOne(w, s, a, o).out| <= |w.out| + s.nbBytes
  {
    if Accepted(a, s) {
      FrameSettles(w.frames, w.retried, w.notified, PluginFrame(s, o + |w.out|, a.dataBytes));
    } else if a.ret == RETRY_NXT_PKT {
      OneMore(w.retried, s);
      SumAround(multiset(SlotsOf(w.frames)), multiset(w.retried), multiset(w.notified), multiset{s});
    } else {
      OneMore(w.notified, s);
      SumAround(multiset(SlotsOf(w.frames)), multiset(w.retried), multiset(w.notified), multiset{s});
    }
  }

  lemma FrameSettles(frames: seq<PluginFrame>, retried: seq<Slot>, notified: seq<Slot>, f: PluginFrame)
    ensures multiset(SlotsOf(frames + [f])) + multiset(retried) + multiset(notified) ==
      multiset(SlotsOf(frames)) + multiset(retried) + multiset(notified) + multiset{f.slot}
  {
    assert (frames + [f])[..|frames|] == frames;
    OneMore(SlotsOf(frames), f.slot);
    SumAround(multiset(SlotsOf(frames)), multiset(retried), multiset(notified), multiset{f.slot});
  }

  lemma OneMore(slots: seq<Slot>, s: Slot)
    ensures multiset(slots + [s]) == multiset(slots) + multiset{s}
  {
  }

  /** It does not matter where one is added. */
  lemma SumAround(a: multiset<Slot>, b: multiset<Slot>, c: multiset<Slot>, d: multiset<Slot>)
    ensures (a + d) + b + c == a + b + c + d && a + (b + d) + c == a + b + c + d && a + b + (c + d) == a + b + c + d
  {
  }

  lemma MultisetMore(slots: seq<Slot>, k: nat)
    requires k + 1 == |slots|
    ensures multiset(slots) == multiset(slots[..k]) + multiset{slots[k]}
  {
    assert slots == slots[..k] + [slots[k]];
  }

  lemma SumMore(a: multiset<Slot>, b: multiset<Slot>, c: multiset<Slot>, x: multiset<Slot>, y: multiset<Slot>,
                z: multiset<Slot>)
    requires x == a + b && y == x + c && z == b + c
    ensures y == a + z
  {
  }

  /** Each reservation ends up in exactly one of packet, retry queue and notices. */
  lemma {:induction false} WriteAllSettles(w: Writing, slots: seq<Slot>, answer: Slot -> Answer, o: nat)
    requires Confined(answer)
    ensures Settled(WriteAll(w, slots, answer, o)) == Settled(w) + multiset(slots)
    ensures |w.out| <= |WriteAll(w, slots, answer, o).out|
  {
    if slots != [] {
      var k := |slots| - 1;
      var v := WriteAll(w, slots[..k], answer, o);
      WriteAllSettles(w, slots[..k], answer, o);
      WriteOneSettles(v, slots[k], answer(slots[k]), o);
      MultisetMore(slots, k);
      SumMore(Settled(w), multiset(slots[..k]), multiset{slots[k]}, Settled(v), Settled(WriteAll(w, slots, answer, o)),
              multiset(slots));
    }
  }

  // ---------- what became of the reservations, by the answers alone ----------

  /** Those whose plugin wrote something, and no more than it had reserved. */
  ghost function Fine(slots: seq<Slot>, answer: Slot -> Answer): seq<Slot> {
    if slots == [] then []
    else
      var s := slots[|slots| - 1];
      Fine(slots[..|slots| - 1], answer) +
      if answer(s).ret == 0 && answer(s).dataBytes != 0 && answer(s).dataBytes <= s.nbBytes then [s] else []
  }

  /** Those whose plugin asked for the next packet. */
  ghost function PutOff(slots: seq<Slot>, answer: Slot -> Answer): seq<Slot> {
    if slots == [] then []
    else
      var s := slots[|slots| - 1];
      PutOff(slots[..|slots| - 1], answer) + if answer(s).ret == 0x801 then [s] else []
  }

  /** Those whose plugin failed, wrote nothing, or claims more than it had reserved. */
  ghost function GivenUp(slots: seq<Slot>, answer: Slot -> Answer): seq<Slot> {
    if slots == [] then []
    else
      var s, a := slots[|slots| - 1], answer(slots[|slots| - 1]);
      GivenUp(slots[..|slots| - 1], answer) +
      if (a.ret != 0 && a.ret != 0x801) || (a.ret == 0 && (a.dataBytes == 0 || a.dataBytes > s.nbBytes)) then [s]
      else []
  }

  /** What the plugins wrote, one after the other. */
  ghost function Payload(slots: seq<Slot>, answer: Slot -> Answer): seq<int> {
    if slots == [] then []
    else Payload(slots[..|slots| - 1], answer) + First(answer(slots[|slots| - 1]).space,
                                                       answer(slots[|slots| - 1]).dataBytes)
  }

  /** The first n bytes, if there are as many. */
  ghost function First(bytes: seq<int>, n: nat): seq<int> {
    if n <= |bytes| then bytes[..n] else bytes
  }

  ghost predicate AnyRetransmittable(slots: seq<Slot>, answer: Slot -> Answer) {
    slots != [] && (answer(slots[|slots| - 1]).isRetransmittable || AnyRetransmittable(slots[..|slots| - 1], answer))
  }

  ghost predicate AnyControlled(slots: seq<Slot>) {
    slots != [] && (slots[|slots| - 1].isCongestionControlled || AnyControlled(slots[..|slots| - 1]))
  }

  /** The frames are those slots, in order, each with its bytes at its place in the packet. */
  ghost predicate FramesAre(frames: seq<PluginFrame>, slots: seq<Slot>, answer: Slot -> Answer, out: seq<int>, o: nat) {
    && |frames| == |slots|
    && (forall i :: 0 <= i < |frames| ==> FrameIs(frames[i], slots[i], answer(slots[i]), out, o))
    && (forall i, j :: 0 <= i < j < |frames| ==> frames[i].offset + frames[i].bytes <= frames[j].offset)
  }

  ghost predicate FrameIs(f: PluginFrame, s: Slot, a: Answer, out: seq<int>, o: nat) {
    && f.slot == s && f.bytes == a.dataBytes <= |a.space| && o <= f.offset && f.offset - o + f.bytes <= |out|
    && out[f.offset - o..f.offset - o + f.bytes] == a.space[..a.dataBytes]
  }

  lemma PayloadMore(out: seq<int>, slots: seq<Slot>, s: Slot, answer: Slot -> Answer)
    requires answer(s).dataBytes <= |answer(s).space|
    ensures out + Payload(slots + [s], answer) == out + Payload(slots, answer) + answer(s).space[..answer(s).dataBytes]
  {
    assert (slots + [s])[..|slots|] == slots;
  }

  lemma FineMore(slots: seq<Slot>, k: nat, answer: Slot -> Answer)
    requires k + 1 == |slots|
    ensures Fine(slots, answer) ==
      if Accepted(answer(slots[k]), slots[k]) then Fine(slots[..k], answer) + [slots[k]] else Fine(slots[..k], answer)
  {
  }

  /** The packet: what was there, and what the plugins wrote. */
  lemma {:induction false} OutGrows(w: Writing, slots: seq<Slot>, answer: Slot -> Answer, o: nat)
    requires Confined(answer)
    ensures WriteAll(w, slots, answer, o).out == w.out + Payload(Fine(slots, answer), answer)
  {
    if slots != [] {
      var k := |slots| - 1;
      OutGrows(w, slots[..k], answer, o);
      FineMore(slots, k, answer);
      if Accepted(answer(slots[k]), slots[k]) {
        PayloadMore(w.out, Fine(slots[..k], answer), slots[k], answer);
      }
    }
  }

  /** Who asked for the next packet is put off, and who was refused otherwise is given up with notice. */
  lemma {:induction false} PutOffOrGivenUp(w: Writing, slots: seq<Slot>, answer: Slot -> Answer, o: nat)
    requires Confined(answer)
    ensures var w' := WriteAll(w, slots, answer, o);
      w'.retried == w.retried + PutOff(slots, answer) && w'.notified == w.notified + GivenUp(slots, answer)
  {
    if slots != [] {
      PutOffOrGivenUp(w, slots[..|slots| - 1], answer, o);
    }
  }

  lemma {:induction false} Flags(w: Writing, slots: seq<Slot>, answer: Slot -> Answer, o: nat)
    requires Confined(answer)
    ensures var w' := WriteAll(w, slots, answer, o);
      && (w'.isPureAck <==> w.isPureAck && !AnyRetransmittable(Fine(slots, answer), answer))
      && (w'.isCongestionControlled <==> w.isCongestionControlled || AnyControlled(Fine(slots, answer)))
      && w'.ret == LastRet(w.ret, slots, answer)
  {
    if slots != [] {
      var k := |slots| - 1;
      Flags(w, slots[..k], answer, o);
      var s, fine := slots[k], Fine(slots[..k], answer);
      FineMore(slots, k, answer);
      assert (fine + [s])[..|fine|] == fine;
    }
  }

  /** The code of the last plugin asked, unless it asked for the next packet. */
  ghost function LastRet(ret: int, slots: seq<Slot>, answer: Slot -> Answer): int {
    if slots == [] then ret else if answer(slots[|slots| - 1]).ret == 0x801 then 0 else answer(slots[|slots| - 1]).ret
  }

  lemma FrameStays(f: PluginFrame, s: Slot, a: Answer, out: seq<int>, out': seq<int>, o: nat)
    requires FrameIs(f, s, a, out, o) && out <= out'
    ensures FrameIs(f, s, a, out', o)
  {
    assert out'[f.offset - o..f.offset - o + f.bytes] == out[f.offset - o..f.offset - o + f.bytes];
  }

  lemma FrameAdded(w: Writing, s: Slot, a: Answer, o: nat)
    requires |a.space| == s.nbBytes && Accepted(a, s)
    ensures var w' := WriteOne(w, s, a, o);
      && |w'.frames| == |w.frames| + 1 && w'.frames[..|w.frames|] == w.frames && w.out <= w'.out
      && FrameIs(w'.frames[|w.frames|], s, a, w'.out, o) && w'.frames[|w.frames|].offset == o + |w.out|
  {
  }

  lemma FramesMore(frames: seq<PluginFrame>, slots: seq<Slot>, answer: Slot -> Answer, out: seq<int>, o: nat,
                   f: PluginFrame, s: Slot, out': seq<int>)
    requires FramesAre(frames, slots, answer, out, o) && out <= out' && FrameIs(f, s, answer(s), out', o)
    requires f.offset == o + |out|
    ensures FramesAre(frames + [f], slots + [s], answer, out', o)
  {
    forall i | 0 <= i < |frames|
      ensures FrameIs(frames[i], slots[i], answer(slots[i]), out', o)
      ensures frames[i].offset + frames[i].bytes <= f.offset {
      FrameStays(frames[i], slots[i], answer(slots[i]), out, out', o);
    }
  }

  /** The frames of the packet are the accepted ones, where their bytes are. */
  lemma {:induction false} FramesGrow(w: Writing, slots: seq<Slot>, answer: Slot -> Answer, o: nat)
    requires Confined(answer) && w.frames == []
    ensures var w' := WriteAll(w, slots, answer, o); FramesAre(w'.frames, Fine(slots, answer), answer, w'.out, o)
  {
    if slots != [] {
      var k := |slots| - 1;
      FramesGrow(w, slots[..k], answer, o);
      var v, s := WriteAll(w, slots[..k], answer, o), slots[k];
      FineMore(slots, k, answer);
      if Accepted(answer(s), s) {
        FrameAdded(v, s, answer(s), o);
        var w' := WriteOne(v, s, answer(s), o);
        assert w'.frames == v.frames + [w'.frames[|v.frames|]];
        FramesMore(v.frames, Fine(slots[..k], answer), answer, v.out, o, w'.frames[|v.frames|], s, w'.out);
      }
    }
  }

  // ---------- frames cut out of split packets ----------

  function Copied(q: seq<Iovec>): seq<int> {
    if q == [] then []
    else
      var k := |q| - 1;
      Copied(q[..k]) + (if q[k].base.Some? then q[k].base.value else [])
  }

  ghost predicate Sized(q: seq<Iovec>) {
    forall i :: 0 <= i < |q| ==> q[i].base.Some? ==> |q[i].base.value| == q[i].len
  }

  /** Some frame is among them that has something to copy. */
  predicate AnyCopied(q: seq<Iovec>) {
    exists i :: 0 <= i < |q| && q[i].base.Some?
  }

  // ---------- in the buffer ----------

  method Put(bytes: array<int>, at: nat, data: seq<int>)
    requires at + |data| <= bytes.Length
    modifies bytes
    ensures bytes[..at] == old(bytes[..at]) && bytes[at..at + |data|] == data
    ensures bytes[at + |data|..] == old(bytes[at + |data|..])
  {
    var i := 0;
    while i < |data|
      invariant i <= |data|
      invariant forall k :: 0 <= k < bytes.Length ==>
        bytes[k] == if at <= k < at + i then data[k - at] else old(bytes[k])
    {
      bytes[at + i] := data[i];
      i := i + 1;
    }
  }

  /** The packet so far is at the start of the buffer. */
  ghost predicate Holds(bytes: array<int>, out: seq<int>, maxBytes: nat)
    reads bytes
  {
    |out| <= maxBytes <= bytes.Length && bytes[..|out|] == out
  }

  // ---------- where all reservations and all bytes are ----------

  /** Every reservation ever made is in exactly one place: a packet, refused, or one of the queues. */
  ghost predicate AccountsFor(issued: set<Slot>, packed: multiset<Slot>, refused: multiset<Slot>, retry: seq<Slot>,
                              reserved: seq<Slot>) {
    packed + refused + multiset(retry) + multiset(reserved) == multiset(issued)
  }

  /** So the retry queue holds none twice. */
  lemma QueuedOnce(issued: set<Slot>, packed: multiset<Slot>, refused: multiset<Slot>, retry: seq<Slot>,
                   reserved: seq<Slot>)
    requires AccountsFor(issued, packed, refused, retry, reserved)
    ensures Unrepeated(retry)
  {
    forall i, j | 0 <= i < j < |retry| ensures retry[i] != retry[j] {
      OnePlace(issued, packed, refused, retry, reserved, retry[i]);
      CountsTwice(retry, i, j);
    }
  }

  lemma CountsTwice(q: seq<Slot>, i: nat, j: nat)
    requires i < j < |q|
    ensures q[i] == q[j] ==> multiset(q)[q[i]] >= 2
  {
    assert q == q[..j] + q[j..] && q[..j][i] == q[i] && q[j..][0] == q[j];
    assert multiset(q)[q[i]] == multiset(q[..j])[q[i]] + multiset(q[j..])[q[i]];
  }

  /** A reservation is in one place, once: in a packet, refused, put off or new. */
  lemma OnePlace(issued: set<Slot>, packed: multiset<Slot>, refused: multiset<Slot>, retry: seq<Slot>,
                 reserved: seq<Slot>, x: Slot)
    requires AccountsFor(issued, packed, refused, retry, reserved)
    ensures packed[x] + refused[x] + multiset(retry)[x] + multiset(reserved)[x] == if x in issued then 1 else 0
  {
    assert (packed + refused + multiset(retry) + multiset(reserved))[x] == multiset(issued)[x];
  }

  lemma SplitQueue(q: seq<Slot>, k: nat)
    requires k <= |q|
    ensures multiset(q) == multiset(q[..k]) + multiset(q[k..])
  {
    assert q == q[..k] + q[k..];
  }

  /** Writing moves reservations between the places. */
  lemma WrittenAccounts(issued: set<Slot>, packed: multiset<Slot>, refused: multiset<Slot>, retry: seq<Slot>,
                        reserved: seq<Slot>,
                        k: nat, l: nat, w: Writing)
    requires AccountsFor(issued, packed, refused, retry, reserved) && k <= |retry| && l <= |reserved|
    requires Settled(w) == multiset(retry[..k]) + multiset(reserved[..l])
    ensures AccountsFor(issued, packed + multiset(SlotsOf(w.frames)), refused + multiset(w.notified),
                        retry[k..] + w.retried, reserved[l..])
  {
    SplitQueue(retry, k);
    SplitQueue(reserved, l);
    assert multiset(retry[k..] + w.retried) == multiset(retry[k..]) + multiset(w.retried);
    SumMoved(packed, refused, multiset(retry[..k]), multiset(retry[k..]), multiset(reserved[..l]),
             multiset(reserved[l..]),
             multiset(SlotsOf(w.frames)), multiset(w.retried), multiset(w.notified));
  }

  lemma SumMoved(p: multiset<Slot>, r: multiset<Slot>, a: multiset<Slot>, b: multiset<Slot>, c: multiset<Slot>,
                 d: multiset<Slot>,
                 x: multiset<Slot>, y: multiset<Slot>, z: multiset<Slot>)
    requires x + y + z == a + c
    ensures (p + x) + (r + z) + (b + y) + d == p + r + (a + b) + (c + d)
  {
    forall s ensures ((p + x) + (r + z) + (b + y) + d)[s] == (p + r + (a + b) + (c + d))[s] {
      assert (x + y + z)[s] == (a + c)[s];
    }
  }

  /** What a call writes counts for the packet being written. */
  lemma InFlightMore(inFlight: map<int, nat>, now: map<int, nat>, current: seq<PluginFrame>, frames: seq<PluginFrame>,
                     packets: seq<seq<PluginFrame>>)
    requires InFlightRight(inFlight, current, packets)
    requires forall p :: InFlight(now, p) == InFlight(inFlight, p) + BytesOf(frames, p)
    ensures InFlightRight(now, current + frames, packets)
  {
    forall p ensures InFlight(now, p) == BytesOf(current + frames, p) + BytesOut(packets, p) {
      BytesOfConcat(current, frames, p);
    }
  }

  lemma IssuedAccounts(issued: set<Slot>, packed: multiset<Slot>, refused: multiset<Slot>, retry: seq<Slot>,
                       reserved: seq<Slot>, s: Slot)
    requires AccountsFor(issued, packed, refused, retry, reserved) && s !in issued
    ensures AccountsFor(issued + {s}, packed, refused, retry, reserved + [s])
  {
    OneMore(reserved, s);
    assert multiset(issued + {s}) == multiset(issued) + multiset{s};
  }

  /** The bytes of a plugin in all packets that are out. */
  function BytesOut(packets: seq<seq<PluginFrame>>, plugin: int): nat {
    if packets == [] then 0
    else BytesOf(packets[0], plugin) + BytesOut(packets[1..], plugin)
  }

  lemma {:induction false} BytesOutConcat(a: seq<seq<PluginFrame>>, b: seq<seq<PluginFrame>>, plugin: int)
    ensures BytesOut(a + b, plugin) == BytesOut(a, plugin) + BytesOut(b, plugin)
  {
    if a == [] {
      assert a + b == b;
    } else {
      BytesOutConcat(a[1..], b, plugin);
      assert (a + b)[1..] == a[1..] + b;
    }
  }

  lemma BytesOutAt(packets: seq<seq<PluginFrame>>, i: nat, plugin: int)
    requires i < |packets|
    ensures BytesOut(packets, plugin) == BytesOf(packets[i], plugin) + BytesOut(packets[..i] + packets[i + 1..], plugin)
  {
    assert packets == packets[..i] + packets[i..];
    BytesOutConcat(packets[..i], packets[i..], plugin);
    BytesOutConcat(packets[..i], packets[i + 1..], plugin);
  }

  lemma {:induction false} BytesOfConcat(a: seq<PluginFrame>, b: seq<PluginFrame>, plugin: int)
    ensures BytesOf(a + b, plugin) == BytesOf(a, plugin) + BytesOf(b, plugin)
  {
    if b == [] {
      assert a + b == a;
    } else {
      var k := |b| - 1;
      BytesOfConcat(a, b[..k], plugin);
      assert (a + b)[..|a| + k] == a + b[..k];
    }
  }

  /** What the plugins have in flight is what is in the packet being written and in those out. */
  ghost predicate InFlightRight(inFlight: map<int, nat>, current: seq<PluginFrame>, packets: seq<seq<PluginFrame>>) {
    forall p :: InFlight(inFlight, p) == BytesOf(current, p) + BytesOut(packets, p)
  }

  class Connection {
    var rtxFrames: seq<Iovec>
    var retryFrames: seq<Slot>
    var reservedFrames: seq<Slot>
    /** bytes_in_flight of each plugin. */
    var inFlight: map<int, nat>
    /** The plugin frames of the packet being written, and of the packets that are out. */
    var current: seq<PluginFrame>
    var packets: seq<seq<PluginFrame>>
    ghost var issued: set<Slot>
    ghost var packed: multiset<Slot>
    ghost var refused: multiset<Slot>

    ghost predicate Valid()
      reads this
    {
      && Sized(rtxFrames) && AccountsFor(issued, packed, refused, retryFrames, reservedFrames)
      && InFlightRight(inFlight, current, packets)
    }

    constructor ()
      ensures Valid() && issued == {} && packets == [] && current == []
    {
      rtxFrames, retryFrames, reservedFrames := [], [], [];
      inFlight, current, packets := map[], [], [];
      issued, packed, refused := {}, multiset{}, multiset{};
    }

    /** A new reservation. */
    method Reserve(s: Slot)
      requires Valid() && s !in issued
      modifies `reservedFrames, `issued
      ensures Valid() && reservedFrames == old(reservedFrames) + [s] && issued == old(issued) + {s}
    {
      IssuedAccounts(issued, packed, refused, retryFrames, reservedFrames, s);
      reservedFrames := reservedFrames + [s];
      issued := issued + {s};
    }

    /** The packet being written goes out. */
    method QueuePacket()
      requires Valid()
      modifies `current, `packets
      ensures Valid() && current == [] && packets == old(packets) + [old(current)]
    {
      forall p ensures BytesOut(packets + [current], p) == BytesOut(packets, p) + BytesOf(current, p) {
        BytesOutConcat(packets, [current], p);
        assert BytesOut([current], p) == BytesOf(current, p) + BytesOut([], p);
      }
      packets, current := packets + [current], [];
    }

    /** A packet is acknowledged or lost: the plugins get its bytes back, and a notice of each frame. */
    method DequeuePacket(i: nat) returns (notices: seq<Slot>)
      requires Valid() && i < |packets|
      modifies `packets, `inFlight
      ensures Valid() && packets == old(packets)[..i] + old(packets)[i + 1..] && notices == NoticesOf(old(packets)[i])
      ensures forall p :: InFlight(inFlight, p) == InFlight(old(inFlight), p) - BytesOf(old(packets)[i], p)
    {
      forall p ensures BytesOut(packets, p) == BytesOf(packets[i], p) + BytesOut(packets[..i] + packets[i + 1..], p) {
        BytesOutAt(packets, i, p);
      }
      inFlight, notices := RemoveRegisteredPluginFrames(packets[i], inFlight);
      packets := packets[..i] + packets[i + 1..];
    }

    /** The plugin writes into the buffer; what is refused is erased. */
    method WriteSlot(bytes: array<int>, maxBytes: nat, w: Writing, s: Slot, a: Answer, payloadOffset: nat)
        returns (w': Writing)
      requires |a.space| == s.nbBytes && Holds(bytes, w.out, maxBytes) && |w.out| + s.nbBytes <= maxBytes
      modifies bytes
      ensures w' == WriteOne(w, s, a, payloadOffset) && Holds(bytes, w'.out, maxBytes)
      ensures a.ret == 0 && 0 < a.dataBytes <= s.nbBytes ==>
        && w'.out == w.out + a.space[..a.dataBytes] && w'.retried == w.retried && w'.notified == w.notified
        && w'.frames == w.frames + [PluginFrame(s, payloadOffset + |w.out|, a.dataBytes)]
      ensures a.ret == 0x801 ==>
        w'.out == w.out && w'.frames == w.frames && w'.retried == w.retried + [s] && w'.notified == w.notified
      ensures a.ret != 0x801 && (a.ret != 0 || a.dataBytes == 0 || a.dataBytes > s.nbBytes) ==>
        w'.out == w.out && w'.frames == w.frames && w'.retried == w.retried && w'.notified == w.notified + [s]
      ensures bytes[maxBytes..] == old(bytes[maxBytes..])
    {
      var length := |w.out|;
      ghost var tail := bytes[maxBytes..];
      Put(bytes, length, a.space);
      assert bytes[maxBytes..] == tail;
      w' := WriteOne(w, s, a, payloadOffset);
      if Accepted(a, s) {
        assert bytes[..length + a.dataBytes] == w.out + a.space[..a.dataBytes];
      } else if a.ret != RETRY_NXT_PKT {
        Put(bytes, length, seq(s.nbBytes, i => 0));
        assert bytes[maxBytes..] == tail;
      }
    }

    /** Frames of split packets, while they fit. */
    method CopyFrames(bytes: array<int>, maxBytes: nat) returns (out: seq<int>, isPureAck: bool, ghost n: nat)
      requires maxBytes <= bytes.Length && Sized(rtxFrames)
      modifies `rtxFrames, bytes
      ensures n <= |old(rtxFrames)| && rtxFrames == old(rtxFrames)[n..]
      ensures out == Copied(old(rtxFrames)[..n]) && Holds(bytes, out, maxBytes)
      ensures isPureAck == !AnyCopied(old(rtxFrames)[..n])
      ensures n < |old(rtxFrames)| ==> |out| + old(rtxFrames)[n].len > maxBytes
      ensures bytes[maxBytes..] == old(bytes[maxBytes..])
    {
      out, isPureAck, n := [], true, 0;
      ghost var was := rtxFrames;
      while rtxFrames != [] && rtxFrames[0].len <= maxBytes - |out|
        invariant n <= |was| && rtxFrames == was[n..]
        invariant out == Copied(was[..n]) && Holds(bytes, out, maxBytes)
        invariant isPureAck == !AnyCopied(was[..n])
        invariant bytes[maxBytes..] == old(bytes[maxBytes..])
        decreases |rtxFrames|
      {
        var f := rtxFrames[0];
        assert f == was[n] && was[..n + 1] == was[..n] + [f];
        rtxFrames := rtxFrames[1..];
        if f.base.Some? {
          ghost var tail := bytes[maxBytes..];
          Put(bytes, |out|, f.base.value);
          assert bytes[maxBytes..] == tail;
          assert bytes[..|out| + f.len] == out + f.base.value;
          out, isPureAck := out + f.base.value, false;
          assert was[..n + 1][n].base.Some?;
        }
        n := n + 1;
        assert Copied(was[..n]) == out;
      }
    }

    /** Everything in turn.  n, k and l say how much of each queue was taken. */
    method WriteNewFrames(bytes: array<int>, maxBytes: nat, payloadOffset: nat, answer: Slot -> Answer,
                          isCongestionControlled: bool)
      returns (w: Writing, ghost n: nat, ghost k: nat, ghost l: nat)
      requires Valid() && maxBytes <= bytes.Length && Confined(answer)
      modifies this, bytes
      ensures Valid() && issued == old(issued) && packets == old(packets) && current == old(current) + w.frames
      ensures packed == old(packed) + multiset(SlotsOf(w.frames)) && refused == old(refused) + multiset(w.notified)
      ensures n <= |old(rtxFrames)| && rtxFrames == old(rtxFrames)[n..]
      ensures k <= |old(retryFrames)| && retryFrames == old(retryFrames)[k..] + w.retried
      ensures l <= |old(reservedFrames)| && reservedFrames == old(reservedFrames)[l..]
      ensures Filling(w, old(rtxFrames)[..n], old(retryFrames)[..k], old(reservedFrames)[..l], answer, payloadOffset,
                      old(inFlight), isCongestionControlled)
      ensures Written(w, old(rtxFrames)[..n], old(retryFrames)[..k] + old(reservedFrames)[..l], answer, payloadOffset,
                      isCongestionControlled)
      ensures Stops(old(rtxFrames), n, old(retryFrames), k, old(reservedFrames), l, answer, payloadOffset,
                    old(inFlight),
                    isCongestionControlled, maxBytes)
      ensures |w.out| <= maxBytes && bytes[..|w.out|] == w.out && bytes[maxBytes..] == old(bytes[maxBytes..])
    {
      QueuedOnce(issued, packed, refused, retryFrames, reservedFrames);
      w, n, k, l := FillPacket(bytes, maxBytes, payloadOffset, answer, isCongestionControlled);
      WrittenAccounts(issued, packed, refused, old(retryFrames), old(reservedFrames), k, l, w);
      Record(w);
    }

    /** The frames are in the packet now, and their bytes count. */
    method Record(w: Writing)
      requires Sized(rtxFrames) && InFlightRight(inFlight, current, packets)
      requires AccountsFor(issued, packed + multiset(SlotsOf(w.frames)), refused + multiset(w.notified),
                           retryFrames, reservedFrames)
      requires forall p :: InFlight(w.inFlight, p) == InFlight(inFlight, p) + BytesOf(w.frames, p)
      modifies `packed, `refused, `inFlight, `current
      ensures Valid() && current == old(current) + w.frames && inFlight == w.inFlight
      ensures packed == old(packed) + multiset(SlotsOf(w.frames)) && refused == old(refused) + multiset(w.notified)
    {
      InFlightMore(inFlight, w.inFlight, current, w.frames, packets);
      packed, refused := packed + multiset(SlotsOf(w.frames)), refused + multiset(w.notified);
      inFlight, current := w.inFlight, current + w.frames;
    }

    method FillPacket(bytes: array<int>, maxBytes: nat, payloadOffset: nat, answer: Slot -> Answer,
                      isCongestionControlled: bool)
      returns (w: Writing, ghost n: nat, ghost k: nat, ghost l: nat)
      requires maxBytes <= bytes.Length && Confined(answer) && Sized(rtxFrames) && Unrepeated(retryFrames)
      modifies `rtxFrames, `retryFrames, `reservedFrames, bytes
      ensures n <= |old(rtxFrames)| && rtxFrames == old(rtxFrames)[n..]
      ensures k <= |old(retryFrames)| && retryFrames == old(retryFrames)[k..] + w.retried
      ensures l <= |old(reservedFrames)| && reservedFrames == old(reservedFrames)[l..]
      ensures Filling(w, old(rtxFrames)[..n], old(retryFrames)[..k], old(reservedFrames)[..l], answer, payloadOffset,
                      inFlight, isCongestionControlled)
      ensures Written(w, old(rtxFrames)[..n], old(retryFrames)[..k] + old(reservedFrames)[..l], answer, payloadOffset,
                      isCongestionControlled)
      ensures Stops(old(rtxFrames), n, old(retryFrames), k, old(reservedFrames), l, answer, payloadOffset, inFlight,
                    isCongestionControlled, maxBytes)
      ensures |w.out| <= maxBytes && bytes[..|w.out|] == w.out && bytes[maxBytes..] == old(bytes[maxBytes..])
    {
      w, n, k, l := WriteQueues(bytes, maxBytes, payloadOffset, answer, isCongestionControlled);
      Writes(w, old(rtxFrames)[..n], old(retryFrames)[..k], old(reservedFrames)[..l], answer, payloadOffset,
             inFlight, isCongestionControlled);
    }

    method WriteQueues(bytes: array<int>, maxBytes: nat, payloadOffset: nat, answer: Slot -> Answer,
                       isCongestionControlled: bool)
      returns (w: Writing, ghost n: nat, ghost k: nat, ghost l: nat)
      requires maxBytes <= bytes.Length && Confined(answer) && Sized(rtxFrames) && Unrepeated(retryFrames)
      modifies `rtxFrames, `retryFrames, `reservedFrames, bytes
      ensures n <= |old(rtxFrames)| && rtxFrames == old(rtxFrames)[n..]
      ensures k <= |old(retryFrames)| && retryFrames == old(retryFrames)[k..] + w.retried
      ensures l <= |old(reservedFrames)| && reservedFrames == old(reservedFrames)[l..]
      ensures Filling(w, old(rtxFrames)[..n], old(retryFrames)[..k], old(reservedFrames)[..l], answer, payloadOffset,
                      inFlight, isCongestionControlled)
      ensures Stops(old(rtxFrames), n, old(retryFrames), k, old(reservedFrames), l, answer, payloadOffset, inFlight,
                    isCongestionControlled, maxBytes)
      ensures |w.out| <= maxBytes && bytes[..|w.out|] == w.out && bytes[maxBytes..] == old(bytes[maxBytes..])
    {
      var out, isPureAck;
      out, isPureAck, n := CopyFrames(bytes, maxBytes);
      var w0 := Writing(out, [], [], [], inFlight, isPureAck, isCongestionControlled || !isPureAck, 0);
      assert w0 == Fresh(old(rtxFrames)[..n], inFlight, isCongestionControlled);
      var w1;
      w1, k := RetryFrames(bytes, maxBytes, w0, answer, payloadOffset);
      w, l := ReservedFrames(bytes, maxBytes, w1, answer, payloadOffset);
      Regrouped(old(retryFrames)[k..], w1.retried, w.retried);
      Fills(old(rtxFrames)[..n], old(retryFrames)[..k], old(reservedFrames)[..l], answer, payloadOffset, inFlight,
            isCongestionControlled);
    }

    /** Reservations put off earlier, while they fit and up to the first that is put off again;
        those go to the back of the same queue. */
    method RetryFrames(bytes: array<int>, maxBytes: nat, w: Writing, answer: Slot -> Answer, payloadOffset: nat)
      returns (w': Writing, ghost n: nat)
      requires Confined(answer) && Holds(bytes, w.out, maxBytes) && Unrepeated(retryFrames) && w.retried == []
      modifies `retryFrames, bytes
      ensures n <= |old(retryFrames)| && w' == WriteAll(w, old(retryFrames)[..n], answer, payloadOffset)
      ensures retryFrames == old(retryFrames)[n..] + w'.retried
      ensures n < |old(retryFrames)| ==> |w'.out| + old(retryFrames)[n].nbBytes > maxBytes
      ensures Holds(bytes, w'.out, maxBytes) && bytes[maxBytes..] == old(bytes[maxBytes..])
    {
      w', n := w, 0;
      ghost var was, f := retryFrames, 0;
      var firstRetry: Option<Slot> := None;
      while retryFrames != [] && Some(retryFrames[0]) != firstRetry && retryFrames[0].nbBytes <= maxBytes - |w'.out|
        invariant n <= |was| && w' == WriteAll(w, was[..n], answer, payloadOffset)
        invariant retryFrames == was[n..] + w'.retried
        invariant firstRetry == if w'.retried == [] then None else Some(w'.retried[0])
        invariant w'.retried != [] ==> f < n && w'.retried[0] == was[f]
        invariant Holds(bytes, w'.out, maxBytes) && bytes[maxBytes..] == old(bytes[maxBytes..])
        decreases |was| - n
      {
        HeadIsNew(was, n, w'.retried, retryFrames);
        f := if w'.retried == [] then n else f;
        ghost var put := w'.retried;
        WriteAllMore(w, was, n, answer, payloadOffset);
        w', firstRetry := RetryOne(bytes, maxBytes, w', answer, payloadOffset, firstRetry);
        Regrouped(was[n + 1..], put, w'.retried);
        n := n + 1;
      }
      if n < |was| {
        assert retryFrames[0] == was[n];
      }
    }

    method RetryOne(bytes: array<int>, maxBytes: nat, w: Writing, answer: Slot -> Answer, payloadOffset: nat,
                    first: Option<Slot>)
      returns (w': Writing, first': Option<Slot>)
      requires Confined(answer) && Holds(bytes, w.out, maxBytes)
      requires retryFrames != [] && |w.out| + retryFrames[0].nbBytes <= maxBytes
      requires first == if w.retried == [] then None else Some(w.retried[0])
      modifies `retryFrames, bytes
      ensures var s := old(retryFrames)[0]; w' == WriteOne(w, s, answer(s), payloadOffset)
      ensures w.retried <= w'.retried && retryFrames == old(retryFrames)[1..] + w'.retried[|w.retried|..]
      ensures first' == if w'.retried == [] then None else Some(w'.retried[0])
      ensures Holds(bytes, w'.out, maxBytes) && bytes[maxBytes..] == old(bytes[maxBytes..])
    {
      first' := first;
      var s := retryFrames[0];
      retryFrames := retryFrames[1..];
      var a := answer(s);
      w' := WriteSlot(bytes, maxBytes, w, s, a, payloadOffset);
      if !Accepted(a, s) && a.ret == RETRY_NXT_PKT {
        if first' == None {
          first' := Some(s);
        }
        retryFrames := retryFrames + [s];
      }
    }

    /** New reservations, while they fit; those put off go to the retry queue. */
    method ReservedFrames(bytes: array<int>, maxBytes: nat, w: Writing, answer: Slot -> Answer, payloadOffset: nat)
      returns (w': Writing, ghost n: nat)
      requires Confined(answer) && Holds(bytes, w.out, maxBytes)
      modifies `retryFrames, `reservedFrames, bytes
      ensures n <= |old(reservedFrames)| && w' == WriteAll(w, old(reservedFrames)[..n], answer, payloadOffset)
      ensures reservedFrames == old(reservedFrames)[n..]
      ensures w.retried <= w'.retried && retryFrames == old(retryFrames) + w'.retried[|w.retried|..]
      ensures n < |old(reservedFrames)| ==> |w'.out| + old(reservedFrames)[n].nbBytes > maxBytes
      ensures Holds(bytes, w'.out, maxBytes) && bytes[maxBytes..] == old(bytes[maxBytes..])
    {
      w', n := w, 0;
      ghost var was := reservedFrames;
      while reservedFrames != [] && reservedFrames[0].nbBytes <= maxBytes - |w'.out|
        invariant n <= |was| && w' == WriteAll(w, was[..n], answer, payloadOffset)
        invariant reservedFrames == was[n..]
        invariant w.retried <= w'.retried && retryFrames == old(retryFrames) + w'.retried[|w.retried|..]
        invariant Holds(bytes, w'.out, maxBytes) && bytes[maxBytes..] == old(bytes[maxBytes..])
        decreases |reservedFrames|
      {
        var s := reservedFrames[0];
        WriteAllMore(w, was, n, answer, payloadOffset);
        reservedFrames := reservedFrames[1..];
        var a := answer(s);
        w' := WriteSlot(bytes, maxBytes, w', s, a, payloadOffset);
        if !Accepted(a, s) && a.ret == RETRY_NXT_PKT {
          retryFrames := retryFrames + [s];
        }
        n := n + 1;
      }
    }
  }

  /** The bytes of a plugin in a packet. */
  function BytesOf(frames: seq<PluginFrame>, plugin: int): nat {
    if frames == [] then 0
    else
      var f := frames[|frames| - 1];
      BytesOf(frames[..|frames| - 1], plugin) + if f.slot.plugin == plugin then f.bytes else 0
  }

  /** What a plugin has in flight grows by what it got into the packet. */
  lemma {:induction false} InFlightGrows(w: Writing, slots: seq<Slot>, answer: Slot -> Answer, o: nat, plugin: int)
    requires Confined(answer)
    ensures var w' := WriteAll(w, slots, answer, o);
      InFlight(w'.inFlight, plugin) + BytesOf(w.frames, plugin) ==
        InFlight(w.inFlight, plugin) + BytesOf(w'.frames, plugin)
  {
    if slots != [] {
      var k := |slots| - 1;
      InFlightGrows(w, slots[..k], answer, o, plugin);
      InFlightOne(WriteAll(w, slots[..k], answer, o), slots[k], answer(slots[k]), o, plugin);
    }
  }

  lemma InFlightOne(w: Writing, s: Slot, a: Answer, o: nat, plugin: int)
    requires |a.space| == s.nbBytes
    ensures var w' := WriteOne(w, s, a, o);
      InFlight(w'.inFlight, plugin) + BytesOf(w.frames, plugin) ==
        InFlight(w.inFlight, plugin) + BytesOf(w'.frames, plugin)
  {
    var f := PluginFrame(s, o + |w.out|, a.dataBytes);
    assert (w.frames + [f])[..|w.frames|] == w.frames;
  }

  lemma WriteAllMore(w: Writing, was: seq<Slot>, n: nat, answer: Slot -> Answer, o: nat)
    requires Confined(answer) && n < |was|
    ensures WriteAll(w, was[..n + 1], answer, o) ==
      WriteOne(WriteAll(w, was[..n], answer, o), was[n], answer(was[n]), o)
  {
    assert was[..n + 1][..n] == was[..n];
  }

  /** A packet that holds only frames copied from split packets. */
  ghost function Fresh(copied: seq<Iovec>, inFlight: map<int, nat>, isCongestionControlled: bool): Writing {
    var any := AnyCopied(copied);
    Writing(Copied(copied), [], [], [], inFlight, !any, isCongestionControlled || any, 0)
  }

  /** What a packet has become when so much of each queue has been taken: the frames in order, each
      reservation in one place, and the bytes of each plugin counted. */
  ghost predicate Filling(w: Writing, copied: seq<Iovec>, retried: seq<Slot>, reserved: seq<Slot>,
                          answer: Slot -> Answer, o: nat,
                          inFlight: map<int, nat>, isCongestionControlled: bool) {
    && Confined(answer)
    && w == WriteAll(WriteAll(Fresh(copied, inFlight, isCongestionControlled), retried, answer, o), reserved, answer, o)
    && Settled(w) == multiset(retried) + multiset(reserved)
    && forall p :: InFlight(w.inFlight, p) == InFlight(inFlight, p) + BytesOf(w.frames, p)
  }

  /** The packet is the frames copied and what the plugins wrote that wrote something within their reservation;
      who asked for the next packet is put off, and the others are given up, all in order. */
  ghost predicate Written(w: Writing, copied: seq<Iovec>, slots: seq<Slot>, answer: Slot -> Answer, o: nat,
                          isCongestionControlled: bool) {
    var fine := Fine(slots, answer);
    && w.out == Copied(copied) + Payload(fine, answer) && FramesAre(w.frames, fine, answer, w.out, o)
    && w.retried == PutOff(slots, answer) && w.notified == GivenUp(slots, answer)
    && (w.isPureAck <==> !AnyCopied(copied) && !AnyRetransmittable(fine, answer))
    && (w.isCongestionControlled <==> isCongestionControlled || AnyCopied(copied) || AnyControlled(fine))
    && w.ret == LastRet(0, slots, answer)
  }

  lemma {:induction false} WriteAllConcat(w: Writing, a: seq<Slot>, b: seq<Slot>, answer: Slot -> Answer, o: nat)
    requires Confined(answer)
    ensures WriteAll(WriteAll(w, a, answer, o), b, answer, o) == WriteAll(w, a + b, answer, o)
  {
    if b == [] {
      assert a + b == a;
    } else {
      var k := |b| - 1;
      WriteAllConcat(w, a, b[..k], answer, o);
      assert (a + b)[..|a| + k] == a + b[..k];
    }
  }

  lemma WritesAll(copied: seq<Iovec>, slots: seq<Slot>, answer: Slot -> Answer, o: nat,
                  inFlight: map<int, nat>, isCongestionControlled: bool)
    requires Confined(answer)
    ensures Written(WriteAll(Fresh(copied, inFlight, isCongestionControlled), slots, answer, o), copied, slots, answer,
                    o, isCongestionControlled)
  {
    var v := Fresh(copied, inFlight, isCongestionControlled);
    OutGrows(v, slots, answer, o);
    PutOffOrGivenUp(v, slots, answer, o);
    Flags(v, slots, answer, o);
    FramesGrow(v, slots, answer, o);
  }

  lemma Writes(w: Writing, copied: seq<Iovec>, a: seq<Slot>, b: seq<Slot>, answer: Slot -> Answer, o: nat,
               inFlight: map<int, nat>, isCongestionControlled: bool)
    requires Filling(w, copied, a, b, answer, o, inFlight, isCongestionControlled)
    ensures Written(w, copied, a + b, answer, o, isCongestionControlled)
  {
    WriteAllConcat(Fresh(copied, inFlight, isCongestionControlled), a, b, answer, o);
    WritesAll(copied, a + b, answer, o, inFlight, isCongestionControlled);
  }

  /** The next slot of a queue asks for more bytes than are left. */
  predicate NoRoom(w: Writing, q: seq<Slot>, n: nat, maxBytes: nat) {
    n < |q| ==> |w.out| + q[n].nbBytes > maxBytes
  }

  /** Of each queue, in turn, as much has been taken as there was room for. */
  ghost predicate Stops(rtx: seq<Iovec>, n: nat, retry: seq<Slot>, k: nat, reserved: seq<Slot>, l: nat,
                        answer: Slot -> Answer, o: nat,
                        inFlight: map<int, nat>, isCongestionControlled: bool, maxBytes: nat) {
    && Confined(answer) && n <= |rtx| && k <= |retry| && l <= |reserved|
    && var w0 := Fresh(rtx[..n], inFlight, isCongestionControlled);
    && var w1 := WriteAll(w0, retry[..k], answer, o);
    && (n < |rtx| ==> |w0.out| + rtx[n].len > maxBytes) && NoRoom(w1, retry, k, maxBytes)
    && NoRoom(WriteAll(w1, reserved[..l], answer, o), reserved, l, maxBytes)
  }

  lemma Fills(copied: seq<Iovec>, retried: seq<Slot>, reserved: seq<Slot>, answer: Slot -> Answer, o: nat,
              inFlight: map<int, nat>, isCongestionControlled: bool)
    requires Confined(answer)
    ensures var w := WriteAll(WriteAll(Fresh(copied, inFlight, isCongestionControlled), retried, answer, o),
                              reserved, answer, o);
      Filling(w, copied, retried, reserved, answer, o, inFlight, isCongestionControlled)
  {
    Accounted(Fresh(copied, inFlight, isCongestionControlled), retried, reserved, answer, o);
  }

  lemma Accounted(w: Writing, a: seq<Slot>, b: seq<Slot>, answer: Slot -> Answer, o: nat)
    requires Confined(answer) && w.frames == [] && w.retried == [] && w.notified == []
    ensures var w' := WriteAll(WriteAll(w, a, answer, o), b, answer, o);
      && Settled(w') == multiset(a) + multiset(b)
      && forall p :: InFlight(w'.inFlight, p) == InFlight(w.inFlight, p) + BytesOf(w'.frames, p)
  {
    var v := WriteAll(w, a, answer, o);
    var w' := WriteAll(v, b, answer, o);
    assert Settled(w) == multiset{};
    WriteAllSettles(w, a, answer, o);
    WriteAllSettles(v, b, answer, o);
    forall p ensures InFlight(w'.inFlight, p) == InFlight(w.inFlight, p) + BytesOf(w'.frames, p) {
      InFlightGrows(w, a, answer, o, p);
      InFlightGrows(v, b, answer, o, p);
      assert BytesOf(w.frames, p) == 0;
    }
  }

  /** The frames of a packet as they are listed, the last registered first. */
  function NoticesOf(frames: seq<PluginFrame>): seq<Slot> {
    if frames == [] then [] else [frames[|frames| - 1].slot] + NoticesOf(frames[..|frames| - 1])
  }

  /** When a packet is acknowledged or lost, the plugins get its bytes back, and are told. */
  method RemoveRegisteredPluginFrames(frames: seq<PluginFrame>, inFlight: map<int, nat>)
      returns (r: map<int, nat>, notices: seq<Slot>)
    requires forall p :: InFlight(inFlight, p) >= BytesOf(frames, p)
    ensures forall p :: InFlight(r, p) == InFlight(inFlight, p) - BytesOf(frames, p)
    ensures notices == NoticesOf(frames)
  {
    r, notices := inFlight, [];
    var k := |frames|;
    assert frames[..k] == frames;
    while k > 0
      invariant 0 <= k <= |frames|
      invariant forall p :: InFlight(r, p) + BytesOf(frames, p) == InFlight(inFlight, p) + BytesOf(frames[..k], p)
      invariant notices + NoticesOf(frames[..k]) == NoticesOf(frames)
    {
      k := k - 1;
      var f := frames[k];
      assert frames[..k + 1][..k] == frames[..k];
      forall p
        ensures BytesOf(frames[..k + 1], p) == BytesOf(frames[..k], p) + (if f.slot.plugin == p then f.bytes else 0) {
      }
      assert InFlight(r, f.slot.plugin) >= f.bytes;
      r := r[f.slot.plugin := InFlight(r, f.slot.plugin) - f.bytes];
      assert NoticesOf(frames[..k + 1]) == [f.slot] + NoticesOf(frames[..k]);
      assert notices + ([f.slot] + NoticesOf(frames[..k])) == (notices + [f.slot]) + NoticesOf(frames[..k]);
      notices := notices + [f.slot];
    }
    assert frames[..0] == [];
  }

  lemma Regrouped(s: seq<Slot>, r: seq<Slot>, r': seq<Slot>)
    requires r <= r'
    ensures s + r + r'[|r|..] == s + r'
  {
  }

  /** Unless the head is the first one put off, it has not been tried yet. */
  lemma HeadIsNew(was: seq<Slot>, n: nat, retried: seq<Slot>, q: seq<Slot>)
    requires n <= |was| && q == was[n..] + retried && q != []
    ensures n < |was| ==> q[0] == was[n] && q[1..] == was[n + 1..] + retried
    ensures n == |was| ==> retried != [] && q[0] == retried[0]
  {
    if n < |was| {
      assert q[1..] == was[n + 1..] + retried;
    } else {
      assert q == retried;
    }
  }
}
