/**
 The rendezvous of the RDMA transport (src/ibverbs_van.h), over all nodes at once.

 A message goes START, REPLY, WRITE.  START and REPLY are sends; WRITE puts the message into
 the memory of the receiver.  A posted operation first lands: the network hands it to a
 posted receive context of the peer, for WRITE also filling the remote buffer.  After that
 its own completion and the handling at the peer happen in any order, and everything of one
 message interleaves with everything of the others.

 A run is a sequence of events.  Guards say what the network, the allocators and the queues of
 contexts can offer.  What the code checks or takes for granted (a live pointer, a filled slot, an
 index left in the pool) is not a guard: it is shown that this holds in every reachable state,
 or exactly when it does.
 */
module Rendezvous {
  import opened Options
  import opened Powers

  type Byte = int

  datatype Message = Message(from: nat, to: nat, meta: seq<Byte>, data: seq<seq<Byte>>, control: bool)

  /** Contexts belong to the endpoint of a node towards a peer. */
  datatype Kind = StartKind | ReplyKind | WriteKind | ReceiveKind
  datatype Context = Context(node: nat, peer: nat, kind: Kind, i: nat)

  /** A block of a node's memory pool, a message buffer of a node, an entry of its address pool. */
  datatype Place = Place(node: nat, addr: int)
  datatype Handle = Handle(node: nat, n: nat)
  datatype Slot = Slot(node: nat, idx: nat)

  /** What a context that is not free is held by. */
  datatype Carrier =
    | Start(h: Handle, metaLen: nat, lens: seq<nat>)
    | StartSent
    | Reserved(h: Handle)
    | Reply(h: Handle, place: Place, idx: nat)
    | ReplySent
    | Write(h: Handle, place: Place, idx: nat)
    | WriteSent(h: Handle)
    | GotStart(h: Handle, metaLen: nat, lens: seq<nat>)
    | GotReply(h: Handle, place: Place, idx: nat)
    | GotWrite(idx: nat)

  /** id is the number of the message, kept only to say which message it is. */
  datatype MessageBuffer = MessageBuffer(id: nat, inlineBuf: Place, reserved: Context, data: seq<seq<Byte>>)
  datatype BufferContext = BufferContext(id: nat, buffer: Place, metaLen: nat, lens: seq<nat>)
  datatype Delivery = Delivery(id: nat, node: nat, meta: seq<Byte>, data: seq<seq<Byte>>)

  datatype Owner = OfBuffer(h: Handle) | OfSlot(s: Slot) | OfQueue | OfBlock
  datatype Location = AtSender(h: Handle) | AtSlot(s: Slot) | InQueue(p: Place) | Done(k: nat)
  datatype State = State(
    all: set<Context>,
    allSlots: set<Slot>,
    free: set<Context>,
    held: map<Context, Carrier>,
    buffers: map<Handle, MessageBuffer>,
    freeSlots: set<Slot>,
    table: map<Slot, BufferContext>,
    mem: map<Place, seq<Byte>>,
    /** recv_buffers, each entry under the address of its buffer. */
    queue: map<Place, BufferContext>,
    /** The counters of the blocks handed to the application. */
    blocks: map<Place, nat>,
    delivered: seq<Delivery>,
    sent: seq<Message>,
    // the message buffers whose START has not been handled; where the one operation of a message
    // buffer and of a slot is; who owns a block; and where a message is
    early: set<Handle>,
    at: map<Handle, Context>,
    spot: map<Slot, Context>,
    owner: map<Place, Owner>,
    loc: seq<Location>)

  // ---------- messages as bytes ----------

  function Concat(data: seq<seq<Byte>>): seq<Byte> {
    if data == [] then [] else data[0] + Concat(data[1..])
  }

  function Lens(data: seq<seq<Byte>>): seq<nat> {
    if data == [] then [] else [|data[0]|] + Lens(data[1..])
  }

  function Sum(lens: seq<nat>): nat {
    if lens == [] then 0 else lens[0] + Sum(lens[1..])
  }

  function Bytes(m: Message): seq<Byte> {
    m.meta + Concat(m.data)
  }

  /** What SendMsg copies into the buffer it allocates. */
  function InlineBytes(m: Message): seq<Byte> {
    if m.control then m.meta + Concat(m.data) else m.meta
  }

  /** The segments that are left for the scatter list; empty ones are skipped. */
  function Gathered(data: seq<seq<Byte>>): seq<seq<Byte>> {
    if data == [] then []
    else if data[0] == [] then Gathered(data[1..])
    else [data[0]] + Gathered(data[1..])
  }

  lemma {:induction false} GatheredSame(data: seq<seq<Byte>>)
    ensures Concat(Gathered(data)) == Concat(data)
  {
    if data != [] {
      GatheredSame(data[1..]);
      assert Concat(data) == data[0] + Concat(data[1..]);
      if data[0] != [] {
        assert Gathered(data)[1..] == Gathered(data[1..]);
        assert Concat(Gathered(data)) == data[0] + Concat(Gathered(data[1..]));
      }
    }
  }

  lemma {:induction false} ConcatLength(data: seq<seq<Byte>>)
    ensures |Concat(data)| == Sum(Lens(data)) && |Lens(data)| == |data|
  {
    if data != [] {
      ConcatLength(data[1..]);
      assert Lens(data)[1..] == Lens(data[1..]);
    }
  }

  /** RecvMsg: cut the segments off, one after the other; a length passes through a 32-bit variable. */
  function Segments(bytes: seq<Byte>, lens: seq<nat>): (r: seq<seq<Byte>>)
    requires Sum(lens) <= |bytes|
    ensures |r| == |lens|
  {
    if lens == [] then []
    else
      var len := lens[0] % TWO_TO_32;
      [bytes[..len]] + Segments(bytes[len..], lens[1..])
  }

  predicate Short(data: seq<seq<Byte>>) {
    forall i :: 0 <= i < |data| ==> |data[i]| < TWO_TO_32
  }

  lemma {:induction false} SegmentLength(bytes: seq<Byte>, lens: seq<nat>, i: nat)
    requires Sum(lens) <= |bytes| && i < |lens|
    ensures |Segments(bytes, lens)[i]| == lens[i] % TWO_TO_32
  {
    if i > 0 {
      var len := lens[0] % TWO_TO_32;
      SegmentLength(bytes[len..], lens[1..], i - 1);
    }
  }

  lemma {:induction false} LensAt(data: seq<seq<Byte>>, i: nat)
    requires i < |data|
    ensures |Lens(data)| == |data| && Lens(data)[i] == |data[i]|
  {
    ConcatLength(data);
    if i > 0 {
      LensAt(data[1..], i - 1);
    }
  }

  /** The message comes back segment by segment, exactly if every segment is below 2^32 bytes. */
  lemma {:induction false} SlicedBack(data: seq<seq<Byte>>)
    ensures Sum(Lens(data)) <= |Concat(data)|
    ensures Segments(Concat(data), Lens(data)) == data <==> Short(data)
  {
    ConcatLength(data);
    if Short(data) {
      SlicedBackShort(data);
    } else {
      var i :| 0 <= i < |data| && |data[i]| >= TWO_TO_32;
      SegmentLength(Concat(data), Lens(data), i);
      LensAt(data, i);
    }
  }

  lemma {:induction false} SlicedBackShort(data: seq<seq<Byte>>)
    requires Short(data)
    ensures Sum(Lens(data)) <= |Concat(data)| && Segments(Concat(data), Lens(data)) == data
  {
    ConcatLength(data);
    if data != [] {
      SlicedBackShort(data[1..]);
      var len := |data[0]|;
      assert Lens(data)[0] == len && len % TWO_TO_32 == len;
      assert Concat(data)[..len] == data[0] && Concat(data)[len..] == Concat(data[1..]);
      assert Lens(data)[1..] == Lens(data[1..]);
      assert data == [data[0]] + data[1..];
    }
  }

  /** What comes back of the segments of a message. */
  function Cut(data: seq<seq<Byte>>): seq<seq<Byte>> {
    ConcatLength(data);
    Segments(Concat(data), Lens(data))
  }

  /** So the receiver cuts the metadata and the segments out of the bytes of a message. */
  lemma Unpacked(m: Message)
    ensures Sum(Lens(m.data)) <= |Bytes(m)[|m.meta|..]|
    ensures Bytes(m)[..|m.meta|] == m.meta && Segments(Bytes(m)[|m.meta|..], Lens(m.data)) == Cut(m.data)
  {
    ConcatLength(m.data);
    assert Bytes(m)[|m.meta|..] == Concat(m.data);
  }

  // ---------- events ----------

  datatype Event =
    | Send(m: Message, h: Handle, inlineBuf: Place, w: Context, c: Context)
    | Land(c: Context, rx: Context)
    | HandleStart(rx: Context, r: Context, place: Place, idx: nat, junk: seq<Byte>)
    | HandleReply(rx: Context)
    | LandWrite(c: Context, rx: Context)
    | HandleWrite(rx: Context)
    | Complete(c: Context)
    | Recv(p: Place)
    | Release(p: Place)

  /** kMaxDataFields and kSGEntry. */
  const MAX_DATA_FIELDS: nat := 4
  const SG_ENTRIES: nat := 4

  /** It has metadata, and its lengths fit into a START. */
  predicate Sendable(m: Message) {
    m.meta != [] && |m.data| <= MAX_DATA_FIELDS
  }

  /** Its inline bytes and the segments that are left fit into the scatter list of a WRITE. */
  predicate Slim(m: Message) {
    m.control || 1 + |Gathered(m.data)| <= SG_ENTRIES
  }

  predicate HasSlot(s: State, node: nat) {
    exists t :: t in s.freeSlots && t.node == node
  }

  predicate FreeContext(s: State, c: Context, kind: Kind, node: nat, peer: nat) {
    c in s.free && c.kind == kind && c.node == node && c.peer == peer
  }

  /** What the surroundings offer: free contexts, fresh memory, something landed or queued.  The
      index taken for a slot is a free one if there is one. */
  predicate Can(s: State, e: Event) {
    match e
    case Send(m, h, b, w, c) =>
      && h !in s.buffers && h.node == m.from && b !in s.mem && b.node == m.from
      && FreeContext(s, w, WriteKind, m.from, m.to) && FreeContext(s, c, StartKind, m.from, m.to)
    case Land(c, rx) =>
      c in s.held && (s.held[c].Start? || s.held[c].Reply?) && FreeContext(s, rx, ReceiveKind, c.peer, c.node)
    case HandleStart(rx, r, p, idx, junk) =>
      && rx in s.held && s.held[rx].GotStart? && FreeContext(s, r, ReplyKind, rx.node, rx.peer)
      && p !in s.mem && p.node == rx.node && (HasSlot(s, rx.node) ==> Slot(rx.node, idx) in s.freeSlots)
      && |junk| == s.held[rx].metaLen + Sum(s.held[rx].lens)
    case HandleReply(rx) => rx in s.held && s.held[rx].GotReply?
    case LandWrite(c, rx) => c in s.held && s.held[c].Write? && FreeContext(s, rx, ReceiveKind, c.peer, c.node)
    case HandleWrite(rx) => rx in s.held && s.held[rx].GotWrite?
    case Complete(c) => c in s.held && (s.held[c].StartSent? || s.held[c].ReplySent? || s.held[c].WriteSent?)
    case Recv(p) => p in s.queue
    case Release(p) => p in s.blocks
  }

  /** What the code checks, or takes for granted: arrays are not overrun, an index is there to be
      taken, pointers it follows are live, slots it empties are full and slots it fills are empty,
      memory it touches or frees is allocated, and an operation it posts is within the limits. */
  predicate Checked(s: State, e: Event)
    requires Can(s, e)
  {
    match e
    case Send(m, h, b, w, c) => m.meta != [] && |m.data| <= MAX_DATA_FIELDS
    case Land(c, rx) => true
    case HandleStart(rx, r, p, idx, junk) =>
      Slot(rx.node, idx) in s.freeSlots && Slot(rx.node, idx) !in s.table && junk != []
    case HandleReply(rx) =>
      var h := s.held[rx].h;
      && h in s.buffers && s.buffers[h].reserved in s.held && s.held[s.buffers[h].reserved] == Reserved(h)
      && 1 + |s.buffers[h].data| <= SG_ENTRIES
    case LandWrite(c, rx) =>
      && s.held[c].h in s.buffers && s.buffers[s.held[c].h].inlineBuf in s.mem && s.held[c].place in s.mem
      && |s.mem[s.held[c].place]| == |Gather(s, s.held[c].h)|
    case HandleWrite(rx) => Slot(rx.node, s.held[rx].idx) in s.table
    case Complete(c) => s.held[c].WriteSent? ==> s.held[c].h in s.buffers && s.buffers[s.held[c].h].inlineBuf in s.mem
    case Recv(p) => p in s.mem && s.queue[p].metaLen + Sum(s.queue[p].lens) <= |s.mem[p]|
    case Release(p) => s.blocks[p] > 0 && p in s.mem
  }

  /** The bytes of a WRITE: the inline buffer and then the registered segments. */
  function Gather(s: State, h: Handle): seq<Byte>
    requires h in s.buffers && s.buffers[h].inlineBuf in s.mem
  {
    s.mem[s.buffers[h].inlineBuf] + Concat(s.buffers[h].data)
  }

  function Apply(s: State, e: Event): State
    requires Can(s, e) && Checked(s, e)
  {
    match e
    case Send(m, h, b, w, c) => ApplySend(s, m, h, b, w, c)
    case Land(c, rx) => ApplyLand(s, c, rx)
    case HandleStart(rx, r, p, idx, junk) => ApplyHandleStart(s, rx, r, p, idx, junk)
    case HandleReply(rx) => ApplyHandleReply(s, rx)
    case LandWrite(c, rx) => ApplyLandWrite(s, c, rx)
    case HandleWrite(rx) => ApplyHandleWrite(s, rx)
    case Complete(c) => ApplyComplete(s, c)
    case Recv(p) => ApplyRecv(s, p)
    case Release(p) => ApplyRelease(s, p)
  }

  function ApplySend(s: State, m: Message, h: Handle, b: Place, w: Context, c: Context): State {
    s.(free := s.free - {w, c},
       held := s.held[w := Reserved(h)][c := Start(h, |m.meta|, Lens(m.data))],
       buffers := s.buffers[h := MessageBuffer(|s.sent|, b, w, if m.control then [] else Gathered(m.data))],
       mem := s.mem[b := InlineBytes(m)],
       sent := s.sent + [m],
       early := s.early + {h},
       at := s.at[h := c],
       owner := s.owner[b := OfBuffer(h)],
       loc := s.loc + [AtSender(h)])
  }

  function ApplyLand(s: State, c: Context, rx: Context): State
    requires Can(s, Land(c, rx))
  {
    var op := s.held[c];
    var got := if op.Start? then GotStart(op.h, op.metaLen, op.lens) else GotReply(op.h, op.place, op.idx);
    s.(free := s.free - {rx},
       held := s.held[c := if op.Start? then StartSent else ReplySent][rx := got],
       at := s.at[op.h := rx],
       spot := if op.Reply? then s.spot[Slot(c.node, op.idx) := rx] else s.spot)
  }

  function ApplyHandleStart(s: State, rx: Context, r: Context, p: Place, idx: nat, junk: seq<Byte>): State
    requires rx in s.held && s.held[rx].GotStart?
  {
    var slot, got := Slot(rx.node, idx), s.held[rx];
    var id := if got.h in s.buffers then s.buffers[got.h].id else 0;
    s.(free := s.free - {r} + {rx},
       held := (s.held - {rx})[r := Reply(got.h, p, idx)],
       freeSlots := s.freeSlots - {slot},
       table := s.table[slot := BufferContext(id, p, got.metaLen, got.lens)],
       mem := s.mem[p := junk],
       early := s.early - {got.h},
       at := s.at[got.h := r],
       spot := s.spot[slot := r],
       owner := s.owner[p := OfSlot(slot)],
       loc := if id < |s.loc| then s.loc[id := AtSlot(slot)] else s.loc)
  }

  function ApplyHandleReply(s: State, rx: Context): State
    requires rx in s.held && s.held[rx].GotReply? && s.held[rx].h in s.buffers
  {
    var got := s.held[rx];
    var w := s.buffers[got.h].reserved;
    s.(free := s.free + {rx},
       held := (s.held - {rx})[w := Write(got.h, got.place, got.idx)],
       at := s.at[got.h := w],
       spot := s.spot[Slot(rx.peer, got.idx) := w])
  }

  function ApplyLandWrite(s: State, c: Context, rx: Context): State
    requires Can(s, LandWrite(c, rx)) && Checked(s, LandWrite(c, rx))
  {
    var op := s.held[c];
    s.(free := s.free - {rx},
       held := s.held[c := WriteSent(op.h)][rx := GotWrite(op.idx)],
       mem := s.mem[op.place := Gather(s, op.h)],
       spot := s.spot[Slot(c.peer, op.idx) := rx])
  }

  function ApplyHandleWrite(s: State, rx: Context): State
    requires rx in s.held && s.held[rx].GotWrite? && Slot(rx.node, s.held[rx].idx) in s.table
  {
    var slot := Slot(rx.node, s.held[rx].idx);
    var b := s.table[slot];
    s.(free := s.free + {rx},
       held := s.held - {rx},
       freeSlots := s.freeSlots + {slot},
       table := s.table - {slot},
       queue := s.queue[b.buffer := b],
       owner := s.owner[b.buffer := OfQueue],
       loc := if b.id < |s.loc| then s.loc[b.id := InQueue(b.buffer)] else s.loc)
  }

  function ApplyComplete(s: State, c: Context): State
    requires c in s.held && (s.held[c].WriteSent? ==> s.held[c].h in s.buffers)
  {
    var written := s.held[c].WriteSent?;
    s.(free := s.free + {c},
       held := s.held - {c},
       buffers := if written then s.buffers - {s.held[c].h} else s.buffers,
       mem := if written then s.mem - {s.buffers[s.held[c].h].inlineBuf} else s.mem,
       owner := if written then s.owner - {s.buffers[s.held[c].h].inlineBuf} else s.owner)
  }

  function ApplyRecv(s: State, p: Place): State
    requires Can(s, Recv(p)) && Checked(s, Recv(p))
  {
    var b := s.queue[p];
    var shared := |b.lens| > 0;
    s.(queue := s.queue - {p},
       delivered := s.delivered + [Unpack(s, p)],
       loc := if b.id < |s.loc| then s.loc[b.id := Done(|s.delivered|)] else s.loc,
       blocks := if shared then s.blocks[p := |b.lens|] else s.blocks,
       mem := if shared then s.mem else s.mem - {p},
       owner := if shared then s.owner[p := OfBlock] else s.owner - {p})
  }

  /** The message as RecvMsg hands it out. */
  function Unpack(s: State, p: Place): Delivery
    requires Can(s, Recv(p)) && Checked(s, Recv(p))
  {
    var b := s.queue[p];
    Delivery(b.id, p.node, s.mem[p][..b.metaLen], Segments(s.mem[p][b.metaLen..], b.lens))
  }

  function ApplyRelease(s: State, p: Place): State
    requires p in s.blocks && s.blocks[p] > 0
  {
    var last := s.blocks[p] == 1;
    s.(blocks := if last then s.blocks - {p} else s.blocks[p := s.blocks[p] - 1],
       mem := if last then s.mem - {p} else s.mem,
       owner := if last then s.owner - {p} else s.owner)
  }

  // ---------- what holds in every reachable state ----------

  /** The message buffer whose progress a held context carries. */
  function HandleOf(x: Carrier): Option<Handle> {
    match x
    case Start(h, _, _) => Some(h)
    case GotStart(h, _, _) => Some(h)
    case Reply(h, _, _) => Some(h)
    case GotReply(h, _, _) => Some(h)
    case Write(h, _, _) => Some(h)
    case WriteSent(h) => Some(h)
    case _ => None
  }

  /** The slot whose progress it carries. */
  function SlotOf(c: Context, x: Carrier): Option<Slot> {
    match x
    case Reply(_, _, idx) => Some(Slot(c.node, idx))
    case GotReply(_, _, idx) => Some(Slot(c.peer, idx))
    case Write(_, _, idx) => Some(Slot(c.peer, idx))
    case GotWrite(idx) => Some(Slot(c.node, idx))
    case _ => None
  }

  /** The WRITE has not been posted. */
  predicate BeforeWrite(x: Carrier) {
    x.Start? || x.GotStart? || x.Reply? || x.GotReply?
  }

  /** Every context is free, or held once. */
  ghost predicate Contexts(s: State) {
    s.free !! s.held.Keys && s.free + s.held.Keys == s.all
  }

  /** Every message buffer has exactly one operation under way. */
  ghost predicate Handles(held: map<Context, Carrier>, buffers: map<Handle, MessageBuffer>, at: map<Handle, Context>) {
    && (forall c :: c in held && HandleOf(held[c]).Some? ==>
      var h := HandleOf(held[c]).value; h in buffers && h in at && at[h] == c)
    && (forall h :: h in buffers ==> h in at && at[h] in held && HandleOf(held[at[h]]) == Some(h))
  }

  /** A write context is reserved by the one message buffer that will need it. */
  ghost predicate Reservations(held: map<Context, Carrier>, buffers: map<Handle, MessageBuffer>,
                               at: map<Handle, Context>)
    requires Handles(held, buffers, at)
  {
    && (forall c :: c in held && held[c].Reserved? ==>
      held[c].h in buffers && buffers[held[c].h].reserved == c && BeforeWrite(held[at[held[c].h]]))
    && (forall h :: h in buffers && BeforeWrite(held[at[h]]) ==>
      buffers[h].reserved in held && held[buffers[h].reserved] == Reserved(h))
  }

  /** Every slot is free, or filled with exactly one operation under way. */
  ghost predicate Slots(s: State) {
    && s.freeSlots !! s.table.Keys && s.freeSlots + s.table.Keys == s.allSlots
    && (forall c :: c in s.held && SlotOf(c, s.held[c]).Some? ==>
      var t := SlotOf(c, s.held[c]).value; t in s.table && t in s.spot && s.spot[t] == c)
    && (forall t :: t in s.table ==>
      t in s.spot && s.spot[t] in s.held && SlotOf(s.spot[t], s.held[s.spot[t]]) == Some(t))
  }

  ghost predicate Owns(s: State, p: Place, o: Owner) {
    match o
    case OfBuffer(h) => h in s.buffers && s.buffers[h].inlineBuf == p
    case OfSlot(t) => t in s.table && s.table[t].buffer == p
    case OfQueue => p in s.queue && s.queue[p].buffer == p
    case OfBlock => p in s.blocks && s.blocks[p] > 0
  }

  /** Every allocated block has exactly one owner. */
  ghost predicate Owners(s: State) {
    Owned(s) && Ownings(s)
  }

  ghost predicate Owned(s: State) {
    s.owner.Keys == s.mem.Keys && forall p :: p in s.owner ==> Owns(s, p, s.owner[p])
  }

  ghost predicate Ownings(s: State) {
    && (forall h :: h in s.buffers ==>
      s.buffers[h].inlineBuf in s.owner && s.owner[s.buffers[h].inlineBuf] == OfBuffer(h))
    && (forall t :: t in s.table ==> s.table[t].buffer in s.owner && s.owner[s.table[t].buffer] == OfSlot(t))
    && (forall p :: p in s.queue ==> p in s.owner && s.owner[p] == OfQueue)
    && (forall p :: p in s.blocks ==> p in s.owner && s.owner[p] == OfBlock)
  }

  ghost predicate Located(s: State, id: nat, l: Location) {
    match l
    case AtSender(h) => h in s.early && h in s.buffers && s.buffers[h].id == id
    case AtSlot(t) => t in s.table && s.table[t].id == id
    case InQueue(p) => p in s.queue && s.queue[p].id == id
    case Done(k) => k < |s.delivered| && s.delivered[k].id == id
  }

  /** Every message is in exactly one place. */
  ghost predicate Locations(s: State) {
    && |s.loc| == |s.sent|
    && (forall i :: 0 <= i < |s.loc| ==> Located(s, i, s.loc[i]))
    && (forall h :: h in s.buffers ==> s.buffers[h].id < |s.loc|)
    && (forall h :: h in s.early ==> h in s.buffers && s.loc[s.buffers[h].id] == AtSender(h))
    && (forall t :: t in s.table ==> s.table[t].id < |s.loc| && s.loc[s.table[t].id] == AtSlot(t))
    && (forall p :: p in s.queue ==> s.queue[p].id < |s.loc| && s.loc[s.queue[p].id] == InQueue(p))
    && (forall k :: 0 <= k < |s.delivered| ==> s.delivered[k].id < |s.loc| && s.loc[s.delivered[k].id] == Done(k))
  }

  /** What an operation says agrees with its message and with the slot it names. */
  ghost predicate CarrierFits(s: State, c: Context, x: Carrier) {
    match x
    case Start(h, ml, lens) => StartFits(s, h, ml, lens, c.node, c.peer)
    case GotStart(h, ml, lens) => StartFits(s, h, ml, lens, c.peer, c.node)
    case Reply(h, p, idx) => SlotFits(s, h, p, Slot(c.node, idx))
    case GotReply(h, p, idx) => SlotFits(s, h, p, Slot(c.peer, idx))
    case Write(h, p, idx) => SlotFits(s, h, p, Slot(c.peer, idx))
    case GotWrite(idx) =>
      var t := Slot(c.node, idx);
      t in s.table && s.table[t].id < |s.sent| && s.table[t].buffer in s.mem &&
      s.mem[s.table[t].buffer] == Bytes(s.sent[s.table[t].id])
    case WriteSent(h) => h in s.buffers && h !in s.early
    case _ => true
  }

  ghost predicate StartFits(s: State, h: Handle, ml: nat, lens: seq<nat>, from: nat, to: nat) {
    h in s.early && h in s.buffers && s.buffers[h].id < |s.sent| &&
    var m := s.sent[s.buffers[h].id];
    ml == |m.meta| && lens == Lens(m.data) && from == m.from && to == m.to
  }

  ghost predicate SlotFits(s: State, h: Handle, p: Place, t: Slot) {
    h !in s.early && h in s.buffers && t in s.table && s.table[t].buffer == p && s.table[t].id == s.buffers[h].id
  }

  ghost predicate BufferFits(s: State, b: MessageBuffer) {
    b.id < |s.sent| && b.inlineBuf in s.mem &&
    var m := s.sent[b.id];
    && s.mem[b.inlineBuf] == InlineBytes(m) && b.data == (if m.control then [] else Gathered(m.data))
    && b.reserved.node == m.from && b.reserved.peer == m.to
  }

  ghost predicate EntryFits(s: State, b: BufferContext, node: nat) {
    b.id < |s.sent| && b.buffer in s.mem &&
    var m := s.sent[b.id];
    && b.metaLen == |m.meta| && b.lens == Lens(m.data) && |s.mem[b.buffer]| == |Bytes(m)|
    && b.buffer.node == node == m.to
  }

  ghost predicate QueuedFits(s: State, p: Place)
    requires p in s.queue
  {
    && EntryFits(s, s.queue[p], p.node) && s.queue[p].buffer == p
    && s.mem[p] == Bytes(s.sent[s.queue[p].id])
  }

  ghost predicate CarriersFit(s: State) {
    forall c :: c in s.held ==> CarrierFits(s, c, s.held[c])
  }

  ghost predicate BuffersFit(s: State) {
    forall h :: h in s.buffers ==> BufferFits(s, s.buffers[h])
  }

  ghost predicate EntriesFit(s: State) {
    && (forall t :: t in s.table ==> EntryFits(s, s.table[t], t.node))
    && (forall p :: p in s.queue ==> QueuedFits(s, p))
  }

  ghost predicate DeliveriesFit(sent: seq<Message>, delivered: seq<Delivery>) {
    && (forall i :: 0 <= i < |sent| ==> Sendable(sent[i]))
    && (forall k :: 0 <= k < |delivered| ==> Intact(delivered[k], sent))
  }

  ghost predicate Contents(s: State) {
    CarriersFit(s) && BuffersFit(s) && EntriesFit(s) && DeliveriesFit(s.sent, s.delivered)
  }

  /** What was delivered is what was sent, as far as lengths go, at the node it was sent to. */
  ghost predicate Intact(d: Delivery, sent: seq<Message>) {
    d.id < |sent| && d.meta == sent[d.id].meta && d.data == Cut(sent[d.id].data) && d.node == sent[d.id].to
  }

  ghost predicate Inv(s: State) {
    && Contexts(s) && Handles(s.held, s.buffers, s.at) && Reservations(s.held, s.buffers, s.at)
    && Slots(s) && Owners(s) && Locations(s) && Contents(s)
  }

  function Init(all: set<Context>, allSlots: set<Slot>): State {
    State(all, allSlots, all, map[], map[], allSlots, map[], map[], map[], map[], [], [], {}, map[], map[], map[], [])
  }

  lemma InitInv(all: set<Context>, allSlots: set<Slot>)
    ensures Inv(Init(all, allSlots))
  {
  }

  /** What the checks of the code come down to: the pointers are always right, and only these can fail. */
  ghost predicate Within(s: State, e: Event)
    requires Can(s, e)
  {
    match e
    case Send(m, _, _, _, _) => Sendable(m)
    case HandleStart(rx, _, _, _, _) => HasSlot(s, rx.node)
    case HandleReply(rx) =>
      var h := s.held[rx].h;
      h in s.buffers && s.buffers[h].id < |s.sent| && Slim(s.sent[s.buffers[h].id])
    case _ => true
  }

  lemma ChecksReply(s: State, rx: Context)
    requires Can(s, HandleReply(rx)) && Handles(s.held, s.buffers, s.at) && Reservations(s.held, s.buffers, s.at)
    requires BuffersFit(s)
    ensures Checked(s, HandleReply(rx)) <==> Within(s, HandleReply(rx))
  {
    var h := HandleOf(s.held[rx]).value;
    assert h in s.buffers && BeforeWrite(s.held[s.at[h]]);
    assert BufferFits(s, s.buffers[h]);
  }

  lemma ChecksLandWrite(s: State, c: Context, rx: Context)
    requires Can(s, LandWrite(c, rx)) && CarriersFit(s) && BuffersFit(s) && EntriesFit(s)
    ensures Checked(s, LandWrite(c, rx))
  {
    var op := s.held[c];
    assert CarrierFits(s, c, op) && BufferFits(s, s.buffers[op.h]);
    var t := Slot(c.peer, op.idx);
    assert EntryFits(s, s.table[t], t.node);
    GatherIsBytes(s, op.h);
  }

  lemma ChecksComplete(s: State, c: Context)
    requires Can(s, Complete(c)) && CarriersFit(s) && BuffersFit(s)
    ensures Checked(s, Complete(c))
  {
    assert CarrierFits(s, c, s.held[c]);
  }

  lemma ChecksRecv(s: State, p: Place)
    requires Can(s, Recv(p)) && EntriesFit(s)
    ensures Checked(s, Recv(p))
  {
    assert QueuedFits(s, p);
    ConcatLength(s.sent[s.queue[p].id].data);
  }

  lemma ChecksStart(s: State, rx: Context, r: Context, p: Place, idx: nat, junk: seq<Byte>)
    requires Can(s, HandleStart(rx, r, p, idx, junk)) && Slots(s) && CarriersFit(s)
    requires DeliveriesFit(s.sent, s.delivered)
    ensures Checked(s, HandleStart(rx, r, p, idx, junk)) <==> Within(s, HandleStart(rx, r, p, idx, junk))
  {
    assert CarrierFits(s, rx, s.held[rx]);
    assert Sendable(s.sent[s.buffers[s.held[rx].h].id]);
    assert Slot(rx.node, idx).node == rx.node;
  }

  /** In a state in order, the checks fail exactly for a message without metadata or with more than
      four segments, where no index is left, and for a scatter list that is too long. */
  lemma ChecksHold(s: State, e: Event)
    requires Inv(s) && Can(s, e)
    ensures Checked(s, e) <==> Within(s, e)
  {
    match e
    case Send(_, _, _, _, _) =>
    case Land(_, _) =>
    case HandleStart(rx, r, p, idx, junk) => ChecksStart(s, rx, r, p, idx, junk);
    case HandleReply(rx) => ChecksReply(s, rx);
    case LandWrite(c, rx) => ChecksLandWrite(s, c, rx);
    case HandleWrite(rx) => assert CarrierFits(s, rx, s.held[rx]);
    case Complete(c) => ChecksComplete(s, c);
    case Recv(p) => ChecksRecv(s, p);
    case Release(p) => assert Owns(s, p, s.owner[p]);
  }

  lemma GatherIsBytes(s: State, h: Handle)
    requires h in s.buffers && BufferFits(s, s.buffers[h])
    ensures Gather(s, h) == Bytes(s.sent[s.buffers[h].id])
  {
    var m := s.sent[s.buffers[h].id];
    GatheredSame(m.data);
    assert Concat([]) == [];
    assert InlineBytes(m) + Concat(s.buffers[h].data) == Bytes(m);
  }

  // ---------- every event keeps it ----------

  /** An operation that an event does not touch still fits. */
  lemma CarrierStays(s: State, t: State, c: Context)
    requires c in s.held && c in t.held && t.held[c] == s.held[c] && CarrierFits(s, c, s.held[c])
    requires s.sent <= t.sent
    requires HandleOf(s.held[c]).Some? ==>
      var h := HandleOf(s.held[c]).value;
      (h in s.buffers ==> h in t.buffers && t.buffers[h] == s.buffers[h]) && (h in s.early <==> h in t.early)
    requires SlotOf(c, s.held[c]).Some? ==>
      var k := SlotOf(c, s.held[c]).value; k in s.table ==> k in t.table && t.table[k] == s.table[k]
    requires s.held[c].GotWrite? ==>
      var b := s.table[Slot(c.node, s.held[c].idx)].buffer; b in t.mem && t.mem[b] == s.mem[b]
    ensures CarrierFits(t, c, t.held[c])
  {
  }

  /** Two operations are never for the same slot, nor for the same buffer. */
  lemma OtherSlot(s: State, c: Context, c': Context)
    requires Slots(s) && Owners(s) && c in s.held && c' in s.held && c != c'
    requires SlotOf(c, s.held[c]).Some?
    ensures SlotOf(c', s.held[c']).Some? ==> var k, k' := SlotOf(c, s.held[c]).value, SlotOf(c', s.held[c']).value;
      k in s.table && k' in s.table && k != k' && s.table[k].buffer != s.table[k'].buffer
  {
    if SlotOf(c', s.held[c']).Some? {
      var k, k' := SlotOf(c, s.held[c]).value, SlotOf(c', s.held[c']).value;
      assert s.owner[s.table[k].buffer] == OfSlot(k) && s.owner[s.table[k'].buffer] == OfSlot(k');
    }
  }

  lemma UnpackIntact(s: State, p: Place)
    requires Can(s, Recv(p)) && Checked(s, Recv(p)) && QueuedFits(s, p)
    ensures Intact(Unpack(s, p), s.sent)
  {
    Unpacked(s.sent[s.queue[p].id]);
  }

  /** An event that moves no message from one place to another. */
  lemma LocationsUntouched(s: State, t: State)
    requires Locations(s) && t.loc == s.loc && t.sent == s.sent && t.early == s.early && t.buffers == s.buffers
    requires t.table == s.table && t.queue == s.queue && t.delivered == s.delivered
    ensures Locations(t)
  {
    forall i | 0 <= i < |t.loc| ensures Located(t, i, t.loc[i]) {
      assert Located(s, i, s.loc[i]);
    }
  }

  /** An event that leaves operations, slots and messages alone. */
  lemma FlowUntouched(s: State, t: State)
    requires Contexts(s) && Handles(s.held, s.buffers, s.at) && Reservations(s.held, s.buffers, s.at) && Slots(s)
    requires t.all == s.all && t.allSlots == s.allSlots && t.free == s.free && t.held == s.held
    requires t.buffers == s.buffers
    requires t.at == s.at && t.spot == s.spot && t.freeSlots == s.freeSlots && t.table == s.table
    ensures Contexts(t) && Handles(t.held, t.buffers, t.at) && Reservations(t.held, t.buffers, t.at) && Slots(t)
  {
    forall c | c in t.held && SlotOf(c, t.held[c]).Some?
      ensures var k := SlotOf(c, t.held[c]).value; k in t.table && k in t.spot && t.spot[k] == c {
      assert SlotOf(c, s.held[c]).Some?;
    }
  }

  lemma BuffersUntouched(s: State, t: State)
    requires BuffersFit(s) && t.buffers == s.buffers && t.mem == s.mem && t.sent == s.sent
    ensures BuffersFit(t)
  {
    forall h | h in t.buffers ensures BufferFits(t, t.buffers[h]) {
      assert BufferFits(s, s.buffers[h]);
    }
  }

  /** An event that leaves all memory and its owners alone. */
  lemma MemoryUntouched(s: State, t: State)
    requires Owners(s) && BuffersFit(s) && EntriesFit(s)
    requires t.mem == s.mem && t.owner == s.owner && t.buffers == s.buffers && t.table == s.table
    requires t.queue == s.queue && t.blocks == s.blocks && t.sent == s.sent
    ensures Owners(t) && BuffersFit(t) && EntriesFit(t)
  {
    forall p | p in t.owner ensures Owns(t, p, t.owner[p]) {
      assert Owns(s, p, s.owner[p]);
    }
    forall h | h in t.buffers ensures BufferFits(t, t.buffers[h]) {
      assert BufferFits(s, s.buffers[h]);
    }
    forall k | k in t.table ensures EntryFits(t, t.table[k], k.node) {
      assert EntryFits(s, s.table[k], k.node);
    }
    forall p | p in t.queue ensures QueuedFits(t, p) {
      assert QueuedFits(s, p);
    }
  }

  lemma LandWriteOthers(s: State, c: Context, rx: Context, c': Context)
    requires Can(s, LandWrite(c, rx)) && Checked(s, LandWrite(c, rx)) && c' in s.held && c' != c && c' != rx
    requires Slots(s) && Owners(s) && CarriersFit(s)
    ensures var t := ApplyLandWrite(s, c, rx); CarrierFits(t, c', t.held[c'])
  {
    assert CarrierFits(s, c, s.held[c]) && CarrierFits(s, c', s.held[c']);
    assert SlotOf(c, s.held[c]).Some?;
    OtherSlot(s, c, c');
    CarrierStays(s, ApplyLandWrite(s, c, rx), c');
  }

  /** What lands is the message, in the buffer of its slot. */
  lemma LandedBytes(s: State, c: Context)
    requires c in s.held && s.held[c].Write? && CarriersFit(s) && BuffersFit(s)
    ensures var op := s.held[c]; var k := Slot(c.peer, op.idx);
      && op.h in s.buffers && s.buffers[op.h].inlineBuf in s.mem && k in s.table && s.table[k].buffer == op.place
      && s.table[k].id == s.buffers[op.h].id < |s.sent| && Gather(s, op.h) == Bytes(s.sent[s.table[k].id])
  {
    assert CarrierFits(s, c, s.held[c]) && BufferFits(s, s.buffers[s.held[c].h]);
    GatherIsBytes(s, s.held[c].h);
  }

  lemma LandWriteGot(s: State, c: Context, rx: Context)
    requires Can(s, LandWrite(c, rx)) && Checked(s, LandWrite(c, rx)) && CarriersFit(s) && BuffersFit(s)
    ensures var t := ApplyLandWrite(s, c, rx); CarrierFits(t, rx, t.held[rx])
  {
    LandedBytes(s, c);
  }

  /** The write context a reply leads to belongs to the endpoint the reply came to. */
  lemma ReplyPeer(s: State, rx: Context)
    requires rx in s.held && s.held[rx].GotReply? && CarriersFit(s) && BuffersFit(s) && EntriesFit(s)
    ensures s.held[rx].h in s.buffers && s.buffers[s.held[rx].h].reserved.peer == rx.peer
  {
    var got := s.held[rx];
    assert CarrierFits(s, rx, got);
    var t := Slot(rx.peer, got.idx);
    assert EntryFits(s, s.table[t], t.node) && BufferFits(s, s.buffers[got.h]);
  }

  /** What a send relies on. */
  ghost predicate Sends(s: State, m: Message, h: Handle, b: Place, w: Context, c: Context) {
    && h !in s.buffers && b !in s.mem && w in s.free && c in s.free && w != c && Sendable(m)
    && w.node == c.node == m.from && w.peer == c.peer == m.to
  }

  lemma SendContexts(s: State, m: Message, h: Handle, b: Place, w: Context, c: Context)
    requires Sends(s, m, h, b, w, c) && Contexts(s)
    ensures var t := ApplySend(s, m, h, b, w, c); Contexts(t)
  {
  }

  lemma SendHandles(s: State, m: Message, h: Handle, b: Place, w: Context, c: Context)
    requires Sends(s, m, h, b, w, c) && Contexts(s) && Handles(s.held, s.buffers, s.at)
    ensures var t := ApplySend(s, m, h, b, w, c); Handles(t.held, t.buffers, t.at)
  {
  }

  lemma ReservationsGrow(held: map<Context, Carrier>, buffers: map<Handle, MessageBuffer>, at: map<Handle, Context>,
                         h: Handle, buf: MessageBuffer, w: Context, c: Context, x: Carrier)
    requires Handles(held, buffers, at) && Reservations(held, buffers, at)
    requires h !in buffers && w !in held && c !in held && w != c && x.Start? && buf.reserved == w
    requires Handles(held[w := Reserved(h)][c := x], buffers[h := buf], at[h := c])
    ensures Reservations(held[w := Reserved(h)][c := x], buffers[h := buf], at[h := c])
  {
    var held', buffers', at' := held[w := Reserved(h)][c := x], buffers[h := buf], at[h := c];
    forall g | g in buffers' && BeforeWrite(held'[at'[g]])
      ensures buffers'[g].reserved in held' && held'[buffers'[g].reserved] == Reserved(g) {
      if g != h {
        assert at[g] in held && held[at[g]] == held'[at'[g]];
      }
    }
    forall y | y in held' && held'[y].Reserved?
      ensures held'[y].h in buffers' && buffers'[held'[y].h].reserved == y && BeforeWrite(held'[at'[held'[y].h]]) {
      if y != w {
        assert held[y] == held'[y];
      }
    }
  }

  lemma SendReservations(s: State, m: Message, h: Handle, b: Place, w: Context, c: Context)
    requires Sends(s, m, h, b, w, c) && Contexts(s) && Handles(s.held, s.buffers, s.at)
    requires Reservations(s.held, s.buffers, s.at)
    ensures var t := ApplySend(s, m, h, b, w, c);
      Handles(t.held, t.buffers, t.at) ==> Reservations(t.held, t.buffers, t.at)
  {
    var t := ApplySend(s, m, h, b, w, c);
    if Handles(t.held, t.buffers, t.at) {
      ReservationsGrow(s.held, s.buffers, s.at, h, t.buffers[h], w, c, t.held[c]);
    }
  }

  lemma SendSlots(s: State, m: Message, h: Handle, b: Place, w: Context, c: Context)
    requires Sends(s, m, h, b, w, c) && Contexts(s) && Slots(s)
    ensures var t := ApplySend(s, m, h, b, w, c); Slots(t)
  {
  }

  lemma SendOwned(s: State, m: Message, h: Handle, b: Place, w: Context, c: Context)
    requires Sends(s, m, h, b, w, c) && Owners(s)
    ensures var t := ApplySend(s, m, h, b, w, c); Owned(t)
  {
    var t := ApplySend(s, m, h, b, w, c);
    forall q | q in t.owner ensures Owns(t, q, t.owner[q]) {
      if q != b {
        assert Owns(s, q, s.owner[q]);
      }
    }
  }

  lemma SendOwnings(s: State, m: Message, h: Handle, b: Place, w: Context, c: Context)
    requires Sends(s, m, h, b, w, c) && Owners(s)
    ensures var t := ApplySend(s, m, h, b, w, c); Ownings(t)
  {
    var t := ApplySend(s, m, h, b, w, c);
    forall x | x in t.buffers
      ensures t.buffers[x].inlineBuf in t.owner && t.owner[t.buffers[x].inlineBuf] == OfBuffer(x) {
      if x != h {
        assert s.owner[s.buffers[x].inlineBuf] == OfBuffer(x);
      }
    }
    forall k | k in t.table ensures t.table[k].buffer in t.owner && t.owner[t.table[k].buffer] == OfSlot(k) {
      assert s.owner[s.table[k].buffer] == OfSlot(k);
    }
  }

  lemma SendOwners(s: State, m: Message, h: Handle, b: Place, w: Context, c: Context)
    requires Sends(s, m, h, b, w, c) && Owners(s)
    ensures var t := ApplySend(s, m, h, b, w, c); Owners(t)
  {
    SendOwned(s, m, h, b, w, c);
    SendOwnings(s, m, h, b, w, c);
  }

  lemma SendLocations(s: State, m: Message, h: Handle, b: Place, w: Context, c: Context)
    requires Sends(s, m, h, b, w, c) && Locations(s)
    ensures var t := ApplySend(s, m, h, b, w, c); Locations(t)
  {
    var t := ApplySend(s, m, h, b, w, c);
    forall i | 0 <= i < |t.loc| ensures Located(t, i, t.loc[i]) {
      assert i < |s.loc| ==> Located(s, i, s.loc[i]);
    }
  }

  lemma SendCarriers(s: State, m: Message, h: Handle, b: Place, w: Context, c: Context)
    requires Sends(s, m, h, b, w, c) && Contexts(s) && CarriersFit(s)
    ensures var t := ApplySend(s, m, h, b, w, c); CarriersFit(t)
  {
    var t := ApplySend(s, m, h, b, w, c);
    forall c' | c' in t.held && c' != w && c' != c ensures CarrierFits(t, c', t.held[c']) {
      assert CarrierFits(s, c', s.held[c']);
      CarrierStays(s, t, c');
    }
    assert t.sent[|s.sent|] == m;
  }

  lemma SendBuffers(s: State, m: Message, h: Handle, b: Place, w: Context, c: Context)
    requires Sends(s, m, h, b, w, c) && BuffersFit(s)
    ensures var t := ApplySend(s, m, h, b, w, c); BuffersFit(t)
  {
    var t := ApplySend(s, m, h, b, w, c);
    forall x | x in t.buffers && x != h ensures BufferFits(t, t.buffers[x]) {
      assert BufferFits(s, s.buffers[x]);
    }
  }

  lemma SendEntries(s: State, m: Message, h: Handle, b: Place, w: Context, c: Context)
    requires Sends(s, m, h, b, w, c) && EntriesFit(s)
    ensures var t := ApplySend(s, m, h, b, w, c); EntriesFit(t)
  {
    var t := ApplySend(s, m, h, b, w, c);
    forall k | k in t.table ensures EntryFits(t, t.table[k], k.node) {
      assert EntryFits(s, s.table[k], k.node);
    }
    forall q | q in t.queue ensures QueuedFits(t, q) {
      assert QueuedFits(s, q);
    }
  }

  lemma SendDeliveries(s: State, m: Message, h: Handle, b: Place, w: Context, c: Context)
    requires Sends(s, m, h, b, w, c) && DeliveriesFit(s.sent, s.delivered)
    ensures var t := ApplySend(s, m, h, b, w, c); DeliveriesFit(t.sent, t.delivered)
  {
  }

  lemma LandContexts(s: State, c: Context, rx: Context)
    requires Can(s, Land(c, rx)) && Checked(s, Land(c, rx))
    requires Contexts(s)
    ensures var t := ApplyLand(s, c, rx); Contexts(t)
  {
  }

  /** The operation of a message buffer lands: it goes on at a context that was free. */
  lemma HandleLands(held: map<Context, Carrier>, buffers: map<Handle, MessageBuffer>, at: map<Handle, Context>,
                    h: Handle, c: Context, rx: Context, x0: Carrier, x: Carrier)
    requires Handles(held, buffers, at) && c in held && rx !in held && HandleOf(held[c]) == Some(h) == HandleOf(x)
    requires HandleOf(x0) == None
    ensures Handles(held[c := x0][rx := x], buffers, at[h := rx])
  {
    var held', at' := held[c := x0][rx := x], at[h := rx];
    forall d | d in held' && HandleOf(held'[d]).Some?
      ensures var g := HandleOf(held'[d]).value; g in buffers && g in at' && at'[g] == d {
      if d != rx {
        assert at[HandleOf(held[d]).value] == d && at[h] == c;
      }
    }
    forall g | g in buffers ensures g in at' && at'[g] in held' && HandleOf(held'[at'[g]]) == Some(g) {
      assert HandleOf(held[at[g]]) == Some(g);
    }
  }

  lemma LandHandles(s: State, c: Context, rx: Context)
    requires Can(s, Land(c, rx)) && Checked(s, Land(c, rx))
    requires Contexts(s) && Handles(s.held, s.buffers, s.at)
    ensures var t := ApplyLand(s, c, rx); Handles(t.held, t.buffers, t.at)
  {
    var op, got := s.held[c], ApplyLand(s, c, rx).held[rx];
    HandleLands(s.held, s.buffers, s.at, op.h, c, rx, if op.Start? then StartSent else ReplySent, got);
  }

  /** An operation goes on before or behind its WRITE as it was; reserved contexts are left alone. */
  lemma ReservationsStay(held: map<Context, Carrier>, held': map<Context, Carrier>, buffers: map<Handle, MessageBuffer>,
                         at: map<Handle, Context>, at': map<Handle, Context>)
    requires Handles(held, buffers, at) && Reservations(held, buffers, at) && Handles(held', buffers, at')
    requires forall c :: c in held && held[c].Reserved? ==> c in held' && held'[c] == held[c]
    requires forall c :: c in held' && held'[c].Reserved? ==> c in held && held'[c] == held[c]
    requires forall h :: h in buffers ==> (BeforeWrite(held'[at'[h]]) <==> BeforeWrite(held[at[h]]))
    ensures Reservations(held', buffers, at')
  {
  }

  lemma ReservationLands(held: map<Context, Carrier>, buffers: map<Handle, MessageBuffer>, at: map<Handle, Context>,
                         h: Handle, c: Context, rx: Context, x0: Carrier, x: Carrier)
    requires Handles(held, buffers, at) && Reservations(held, buffers, at) && c in held && rx !in held
    requires HandleOf(held[c]) == Some(h) && BeforeWrite(held[c]) && BeforeWrite(x) && !x0.Reserved?
    requires Handles(held[c := x0][rx := x], buffers, at[h := rx])
    ensures Reservations(held[c := x0][rx := x], buffers, at[h := rx])
  {
    var held', at' := held[c := x0][rx := x], at[h := rx];
    forall g | g in buffers ensures BeforeWrite(held'[at'[g]]) <==> BeforeWrite(held[at[g]]) {
      assert g != h ==> at'[g] == at[g] && HandleOf(held[at[g]]) == Some(g);
    }
    ReservationsStay(held, held', buffers, at, at');
  }

  lemma LandReservations(s: State, c: Context, rx: Context)
    requires Can(s, Land(c, rx)) && Checked(s, Land(c, rx))
    requires Contexts(s) && Handles(s.held, s.buffers, s.at) && Reservations(s.held, s.buffers, s.at)
    ensures var t := ApplyLand(s, c, rx); Handles(t.held, t.buffers, t.at) ==> Reservations(t.held, t.buffers, t.at)
  {
    var op, got := s.held[c], ApplyLand(s, c, rx).held[rx];
    var sent := if op.Start? then StartSent else ReplySent;
    HandleLands(s.held, s.buffers, s.at, op.h, c, rx, sent, got);
    ReservationLands(s.held, s.buffers, s.at, op.h, c, rx, sent, got);
  }

  /** Neither context has to do with a slot. */
  lemma SlotsElsewhere(s: State, t: State, c: Context, d: Context)
    requires Slots(s) && t.allSlots == s.allSlots && t.freeSlots == s.freeSlots && t.table == s.table
    requires t.spot == s.spot
    requires c in s.held ==> SlotOf(c, s.held[c]) == None
    requires d in s.held ==> SlotOf(d, s.held[d]) == None
    requires c in t.held ==> SlotOf(c, t.held[c]) == None
    requires d in t.held ==> SlotOf(d, t.held[d]) == None
    requires forall x :: x != c && x != d ==> (x in t.held <==> x in s.held) && (x in s.held ==> t.held[x] == s.held[x])
    ensures Slots(t)
  {
    forall j | j in t.table
      ensures j in t.spot && t.spot[j] in t.held && SlotOf(t.spot[j], t.held[t.spot[j]]) == Some(j) {
      assert SlotOf(s.spot[j], s.held[s.spot[j]]) == Some(j);
    }
  }

  lemma LandSlots(s: State, c: Context, rx: Context)
    requires Can(s, Land(c, rx)) && Checked(s, Land(c, rx))
    requires Contexts(s) && Slots(s)
    ensures var t := ApplyLand(s, c, rx); Slots(t)
  {
    var op, t := s.held[c], ApplyLand(s, c, rx);
    if op.Reply? {
      SlotMoves(s, t, Slot(c.node, op.idx), c, rx);
    } else {
      SlotsElsewhere(s, t, c, rx);
    }
  }

  lemma LandCarriers(s: State, c: Context, rx: Context)
    requires Can(s, Land(c, rx)) && Checked(s, Land(c, rx))
    requires Contexts(s) && CarriersFit(s)
    ensures var t := ApplyLand(s, c, rx); CarriersFit(t)
  {
    var t := ApplyLand(s, c, rx);
    forall c' | c' in t.held && c' != c && c' != rx ensures CarrierFits(t, c', t.held[c']) {
      assert CarrierFits(s, c', s.held[c']);
      CarrierStays(s, t, c');
    }
    assert CarrierFits(s, c, s.held[c]);
  }

  /** What the handling of a START relies on. */
  ghost predicate Starts(s: State, rx: Context, r: Context, p: Place, idx: nat, junk: seq<Byte>) {
    && rx in s.held && s.held[rx].GotStart? && r in s.free && p !in s.mem && p.node == rx.node
    && r.node == rx.node && r.peer == rx.peer && Slot(rx.node, idx) in s.freeSlots && Slot(rx.node, idx) !in s.table
    && |junk| == s.held[rx].metaLen + Sum(s.held[rx].lens)
  }

  lemma HandleStartContexts(s: State, rx: Context, r: Context, p: Place, idx: nat, junk: seq<Byte>)
    requires Starts(s, rx, r, p, idx, junk) && Contexts(s)
    ensures var t := ApplyHandleStart(s, rx, r, p, idx, junk); Contexts(t)
  {
  }

  lemma HandleStartHandles(s: State, rx: Context, r: Context, p: Place, idx: nat, junk: seq<Byte>)
    requires Starts(s, rx, r, p, idx, junk) && Contexts(s) && Handles(s.held, s.buffers, s.at)
    ensures var t := ApplyHandleStart(s, rx, r, p, idx, junk); Handles(t.held, t.buffers, t.at)
  {
  }

  lemma HandleStartReservations(s: State, rx: Context, r: Context, p: Place, idx: nat, junk: seq<Byte>)
    requires Starts(s, rx, r, p, idx, junk) && Contexts(s) && Handles(s.held, s.buffers, s.at)
    requires Reservations(s.held, s.buffers, s.at)
    ensures var t := ApplyHandleStart(s, rx, r, p, idx, junk);
      Handles(t.held, t.buffers, t.at) ==> Reservations(t.held, t.buffers, t.at)
  {
    var t := ApplyHandleStart(s, rx, r, p, idx, junk);
    var h := HandleOf(s.held[rx]).value;
    if Handles(t.held, t.buffers, t.at) {
      forall x | x in t.buffers ensures BeforeWrite(t.held[t.at[x]]) <==> BeforeWrite(s.held[s.at[x]]) {
        assert x != h ==> t.at[x] == s.at[x] && HandleOf(s.held[s.at[x]]) == Some(x);
      }
      ReservationsStay(s.held, t.held, s.buffers, s.at, t.at);
    }
  }

  lemma HandleStartSlots(s: State, rx: Context, r: Context, p: Place, idx: nat, junk: seq<Byte>)
    requires Starts(s, rx, r, p, idx, junk) && Contexts(s) && Slots(s)
    ensures var t := ApplyHandleStart(s, rx, r, p, idx, junk); Slots(t)
  {
    var t := ApplyHandleStart(s, rx, r, p, idx, junk);
    forall x | x in t.held && SlotOf(x, t.held[x]).Some?
      ensures var k := SlotOf(x, t.held[x]).value; k in t.table && k in t.spot && t.spot[k] == x {
      if x != r {
        assert t.held[x] == s.held[x];
      }
    }
    forall k | k in t.table
      ensures k in t.spot && t.spot[k] in t.held && SlotOf(t.spot[k], t.held[t.spot[k]]) == Some(k) {
      if k != Slot(rx.node, idx) {
        assert s.spot[k] in s.held && SlotOf(s.spot[k], s.held[s.spot[k]]) == Some(k);
      }
    }
  }

  lemma HandleStartOwned(s: State, rx: Context, r: Context, p: Place, idx: nat, junk: seq<Byte>)
    requires Starts(s, rx, r, p, idx, junk) && Owners(s)
    ensures var t := ApplyHandleStart(s, rx, r, p, idx, junk); Owned(t)
  {
    var t := ApplyHandleStart(s, rx, r, p, idx, junk);
    forall q | q in t.owner ensures Owns(t, q, t.owner[q]) {
      if q != p {
        assert Owns(s, q, s.owner[q]);
      }
    }
  }

  lemma HandleStartOwnings(s: State, rx: Context, r: Context, p: Place, idx: nat, junk: seq<Byte>)
    requires Starts(s, rx, r, p, idx, junk) && Owners(s)
    ensures var t := ApplyHandleStart(s, rx, r, p, idx, junk); Ownings(t)
  {
    var t := ApplyHandleStart(s, rx, r, p, idx, junk);
    forall x | x in t.buffers
      ensures t.buffers[x].inlineBuf in t.owner && t.owner[t.buffers[x].inlineBuf] == OfBuffer(x) {
      assert s.owner[s.buffers[x].inlineBuf] == OfBuffer(x);
    }
    forall k | k in t.table ensures t.table[k].buffer in t.owner && t.owner[t.table[k].buffer] == OfSlot(k) {
      if k != Slot(rx.node, idx) {
        assert s.owner[s.table[k].buffer] == OfSlot(k);
      }
    }
  }

  lemma HandleStartOwners(s: State, rx: Context, r: Context, p: Place, idx: nat, junk: seq<Byte>)
    requires Starts(s, rx, r, p, idx, junk) && Owners(s)
    ensures var t := ApplyHandleStart(s, rx, r, p, idx, junk); Owners(t)
  {
    HandleStartOwned(s, rx, r, p, idx, junk);
    HandleStartOwnings(s, rx, r, p, idx, junk);
  }

  lemma HandleStartLocations(s: State, rx: Context, r: Context, p: Place, idx: nat, junk: seq<Byte>)
    requires Starts(s, rx, r, p, idx, junk) && Locations(s) && s.held[rx].h in s.early
    ensures var t := ApplyHandleStart(s, rx, r, p, idx, junk); Locations(t)
  {
    var t := ApplyHandleStart(s, rx, r, p, idx, junk);
    var h := s.held[rx].h;
    assert s.loc[s.buffers[h].id] == AtSender(h);
    forall i | 0 <= i < |t.loc| ensures Located(t, i, t.loc[i]) {
      assert Located(s, i, s.loc[i]);
    }
  }

  lemma HandleStartCarriers(s: State, rx: Context, r: Context, p: Place, idx: nat, junk: seq<Byte>)
    requires Starts(s, rx, r, p, idx, junk) && Contexts(s) && Handles(s.held, s.buffers, s.at) && CarriersFit(s)
    ensures var t := ApplyHandleStart(s, rx, r, p, idx, junk); CarriersFit(t)
  {
    var t := ApplyHandleStart(s, rx, r, p, idx, junk);
    forall c' | c' in t.held && c' != r ensures CarrierFits(t, c', t.held[c']) {
      assert CarrierFits(s, c', s.held[c']);
      CarrierStays(s, t, c');
    }
    assert CarrierFits(s, rx, s.held[rx]);
  }

  lemma HandleStartBuffers(s: State, rx: Context, r: Context, p: Place, idx: nat, junk: seq<Byte>)
    requires Starts(s, rx, r, p, idx, junk) && BuffersFit(s)
    ensures var t := ApplyHandleStart(s, rx, r, p, idx, junk); BuffersFit(t)
  {
    var t := ApplyHandleStart(s, rx, r, p, idx, junk);
    forall x | x in t.buffers ensures BufferFits(t, t.buffers[x]) {
      assert BufferFits(s, s.buffers[x]);
    }
  }

  lemma HandleStartEntries(s: State, rx: Context, r: Context, p: Place, idx: nat, junk: seq<Byte>)
    requires Starts(s, rx, r, p, idx, junk) && CarriersFit(s) && EntriesFit(s)
    ensures var t := ApplyHandleStart(s, rx, r, p, idx, junk); EntriesFit(t)
  {
    var t := ApplyHandleStart(s, rx, r, p, idx, junk);
    forall k | k in t.table && k != Slot(rx.node, idx) ensures EntryFits(t, t.table[k], k.node) {
      assert EntryFits(s, s.table[k], k.node);
    }
    forall q | q in t.queue ensures QueuedFits(t, q) {
      assert QueuedFits(s, q);
    }
    assert CarrierFits(s, rx, s.held[rx]);
    ConcatLength(s.sent[s.buffers[s.held[rx].h].id].data);
  }

  lemma HandleReplyContexts(s: State, rx: Context)
    requires Can(s, HandleReply(rx)) && Checked(s, HandleReply(rx))
    requires Contexts(s)
    ensures var t := ApplyHandleReply(s, rx); Contexts(t)
  {
  }

  /** The operation of a message buffer goes on at another context, which carried none. */
  lemma HandleMoves(held: map<Context, Carrier>, buffers: map<Handle, MessageBuffer>, at: map<Handle, Context>,
                    h: Handle, rx: Context, w: Context, x: Carrier)
    requires Handles(held, buffers, at) && rx in held && w in held && HandleOf(held[rx]) == Some(h) == HandleOf(x)
    requires HandleOf(held[w]) == None
    ensures Handles((held - {rx})[w := x], buffers, at[h := w])
  {
    var held', at' := (held - {rx})[w := x], at[h := w];
    forall c | c in held' && HandleOf(held'[c]).Some?
      ensures var g := HandleOf(held'[c]).value; g in buffers && g in at' && at'[g] == c {
      if c != w {
        assert at[HandleOf(held[c]).value] == c && at[h] == rx;
      }
    }
    forall g | g in buffers ensures g in at' && at'[g] in held' && HandleOf(held'[at'[g]]) == Some(g) {
      assert HandleOf(held[at[g]]) == Some(g);
    }
  }

  lemma HandleReplyHandles(s: State, rx: Context)
    requires Can(s, HandleReply(rx)) && Checked(s, HandleReply(rx))
    requires Contexts(s) && Handles(s.held, s.buffers, s.at) && Reservations(s.held, s.buffers, s.at)
    ensures var t := ApplyHandleReply(s, rx); Handles(t.held, t.buffers, t.at)
  {
    var got := s.held[rx];
    var w := s.buffers[got.h].reserved;
    HandleMoves(s.held, s.buffers, s.at, got.h, rx, w, Write(got.h, got.place, got.idx));
  }

  /** The write context of a message buffer is used for its WRITE. */
  lemma ReservationUsed(held: map<Context, Carrier>, buffers: map<Handle, MessageBuffer>, at: map<Handle, Context>,
                        h: Handle, rx: Context, w: Context, x: Carrier)
    requires Handles(held, buffers, at) && Reservations(held, buffers, at) && rx in held && w in held
    requires HandleOf(held[rx]) == Some(h) == HandleOf(x) && held[w] == Reserved(h) && !BeforeWrite(x) && !x.Reserved?
    requires Handles((held - {rx})[w := x], buffers, at[h := w])
    ensures Reservations((held - {rx})[w := x], buffers, at[h := w])
  {
    var held', at' := (held - {rx})[w := x], at[h := w];
    forall c | c in held' && held'[c].Reserved?
      ensures held'[c].h in buffers && buffers[held'[c].h].reserved == c && BeforeWrite(held'[at'[held'[c].h]]) {
      assert held[c].Reserved? && buffers[h].reserved == w;
      assert held[c].h != h && at[h] == rx && HandleOf(held[at[held[c].h]]) == Some(held[c].h);
    }
    forall g | g in buffers && BeforeWrite(held'[at'[g]])
      ensures buffers[g].reserved in held' && held'[buffers[g].reserved] == Reserved(g) {
      assert g != h && BeforeWrite(held[at[g]]);
    }
  }

  lemma HandleReplyReservations(s: State, rx: Context)
    requires Can(s, HandleReply(rx)) && Checked(s, HandleReply(rx))
    requires Contexts(s) && Handles(s.held, s.buffers, s.at) && Reservations(s.held, s.buffers, s.at)
    ensures var t := ApplyHandleReply(s, rx); Handles(t.held, t.buffers, t.at) ==> Reservations(t.held, t.buffers, t.at)
  {
    var got := s.held[rx];
    var w := s.buffers[got.h].reserved;
    var x := Write(got.h, got.place, got.idx);
    HandleMoves(s.held, s.buffers, s.at, got.h, rx, w, x);
    ReservationUsed(s.held, s.buffers, s.at, got.h, rx, w, x);
  }

  /** The operation of a slot goes on at another context. */
  lemma SlotMoves(s: State, t: State, k: Slot, c: Context, d: Context)
    requires Slots(s) && t.allSlots == s.allSlots && t.freeSlots == s.freeSlots && t.table == s.table
    requires t.spot == s.spot[k := d]
    requires c in s.held && SlotOf(c, s.held[c]) == Some(k) && d in t.held && SlotOf(d, t.held[d]) == Some(k)
    requires d in s.held ==> SlotOf(d, s.held[d]) == None
    requires c in t.held ==> SlotOf(c, t.held[c]) == None
    requires forall x :: x != c && x != d ==> (x in t.held <==> x in s.held) && (x in s.held ==> t.held[x] == s.held[x])
    ensures Slots(t)
  {
    assert s.spot[k] == c && c != d;
    forall x | x in t.held && SlotOf(x, t.held[x]).Some?
      ensures var j := SlotOf(x, t.held[x]).value; j in t.table && j in t.spot && t.spot[j] == x {
      if x != d {
        assert SlotOf(x, s.held[x]).Some? && s.spot[SlotOf(x, s.held[x]).value] == x;
      }
    }
    forall j | j in t.table
      ensures j in t.spot && t.spot[j] in t.held && SlotOf(t.spot[j], t.held[t.spot[j]]) == Some(j) {
      assert SlotOf(s.spot[j], s.held[s.spot[j]]) == Some(j);
    }
  }

  lemma HandleReplySlots(s: State, rx: Context)
    requires Can(s, HandleReply(rx)) && Checked(s, HandleReply(rx))
    requires Slots(s) && s.buffers[s.held[rx].h].reserved.peer == rx.peer
    ensures var t := ApplyHandleReply(s, rx); Slots(t)
  {
    var got, t := s.held[rx], ApplyHandleReply(s, rx);
    var w := s.buffers[got.h].reserved;
    assert SlotOf(rx, got) == Some(Slot(rx.peer, got.idx)) && SlotOf(w, s.held[w]) == None;
    SlotMoves(s, t, Slot(rx.peer, got.idx), rx, w);
  }

  lemma HandleReplyCarriers(s: State, rx: Context)
    requires Can(s, HandleReply(rx)) && Checked(s, HandleReply(rx))
    requires CarriersFit(s) && s.buffers[s.held[rx].h].reserved.peer == rx.peer
    ensures var t := ApplyHandleReply(s, rx); CarriersFit(t)
  {
    var t := ApplyHandleReply(s, rx);
    var w := s.buffers[s.held[rx].h].reserved;
    forall c' | c' in t.held ensures CarrierFits(t, c', t.held[c']) {
      if c' == w {
        assert CarrierFits(s, rx, s.held[rx]);
      } else {
        assert CarrierFits(s, c', s.held[c']);
        CarrierStays(s, t, c');
      }
    }
  }

  lemma LandWriteContexts(s: State, c: Context, rx: Context)
    requires Can(s, LandWrite(c, rx)) && Checked(s, LandWrite(c, rx))
    requires Contexts(s)
    ensures var t := ApplyLandWrite(s, c, rx); Contexts(t)
  {
  }

  lemma LandWriteHandles(s: State, c: Context, rx: Context)
    requires Can(s, LandWrite(c, rx)) && Checked(s, LandWrite(c, rx))
    requires Contexts(s) && Handles(s.held, s.buffers, s.at)
    ensures var t := ApplyLandWrite(s, c, rx); Handles(t.held, t.buffers, t.at)
  {
  }

  lemma LandWriteReservations(s: State, c: Context, rx: Context)
    requires Can(s, LandWrite(c, rx)) && Checked(s, LandWrite(c, rx))
    requires Contexts(s) && Handles(s.held, s.buffers, s.at) && Reservations(s.held, s.buffers, s.at)
    ensures var t := ApplyLandWrite(s, c, rx);
      Handles(t.held, t.buffers, t.at) ==> Reservations(t.held, t.buffers, t.at)
  {
    var t := ApplyLandWrite(s, c, rx);
    if Handles(t.held, t.buffers, t.at) {
      forall x | x in t.buffers ensures BeforeWrite(t.held[t.at[x]]) <==> BeforeWrite(s.held[s.at[x]]) {
        assert s.at[x] in s.held;
      }
      ReservationsStay(s.held, t.held, s.buffers, s.at, t.at);
    }
  }

  lemma LandWriteSlots(s: State, c: Context, rx: Context)
    requires Can(s, LandWrite(c, rx)) && Checked(s, LandWrite(c, rx))
    requires Contexts(s) && Slots(s)
    ensures var t := ApplyLandWrite(s, c, rx); Slots(t)
  {
    SlotMoves(s, ApplyLandWrite(s, c, rx), Slot(c.peer, s.held[c].idx), c, rx);
  }

  lemma LandWriteOwners(s: State, c: Context, rx: Context)
    requires Can(s, LandWrite(c, rx)) && Checked(s, LandWrite(c, rx))
    requires Owners(s)
    ensures var t := ApplyLandWrite(s, c, rx); Owners(t)
  {
  }

  lemma LandWriteCarriers(s: State, c: Context, rx: Context)
    requires Can(s, LandWrite(c, rx)) && Checked(s, LandWrite(c, rx))
    requires Slots(s) && Owners(s) && CarriersFit(s) && BuffersFit(s)
    ensures var t := ApplyLandWrite(s, c, rx); CarriersFit(t)
  {
    var t := ApplyLandWrite(s, c, rx);
    forall c' | c' in t.held ensures CarrierFits(t, c', t.held[c']) {
      if c' == rx {
        LandWriteGot(s, c, rx);
      } else if c' != c {
        LandWriteOthers(s, c, rx, c');
      }
    }
  }

  lemma LandWriteBuffers(s: State, c: Context, rx: Context)
    requires Can(s, LandWrite(c, rx)) && Checked(s, LandWrite(c, rx))
    requires Owners(s) && CarriersFit(s) && BuffersFit(s)
    ensures var t := ApplyLandWrite(s, c, rx); BuffersFit(t)
  {
    assert CarrierFits(s, c, s.held[c]);
    var t := ApplyLandWrite(s, c, rx);
    forall x | x in t.buffers ensures BufferFits(t, t.buffers[x]) {
      assert BufferFits(s, s.buffers[x]);
      assert s.owner[s.buffers[x].inlineBuf] == OfBuffer(x);
    }
  }

  /** Filling the buffer of a slot with as many bytes as it has. */
  lemma Overwritten(s: State, t: State, p: Place, k: Slot)
    requires Owners(s) && EntriesFit(s) && k in s.table && s.table[k].buffer == p && p in s.mem && p in t.mem
    requires t.table == s.table && t.queue == s.queue && t.sent == s.sent && t.mem == s.mem[p := t.mem[p]]
    requires |t.mem[p]| == |s.mem[p]|
    ensures EntriesFit(t)
  {
    forall x | x in t.table ensures EntryFits(t, t.table[x], x.node) {
      assert EntryFits(s, s.table[x], x.node);
    }
    assert s.owner[p] == OfSlot(k);
    forall q | q in t.queue ensures QueuedFits(t, q) {
      assert QueuedFits(s, q);
    }
  }

  lemma LandWriteEntries(s: State, c: Context, rx: Context)
    requires Can(s, LandWrite(c, rx)) && Checked(s, LandWrite(c, rx))
    requires Owners(s) && CarriersFit(s) && EntriesFit(s)
    ensures var t := ApplyLandWrite(s, c, rx); EntriesFit(t)
  {
    assert CarrierFits(s, c, s.held[c]);
    Overwritten(s, ApplyLandWrite(s, c, rx), s.held[c].place, Slot(c.peer, s.held[c].idx));
  }

  lemma HandleWriteContexts(s: State, rx: Context)
    requires Can(s, HandleWrite(rx)) && Checked(s, HandleWrite(rx))
    requires Contexts(s)
    ensures var t := ApplyHandleWrite(s, rx); Contexts(t)
  {
  }

  lemma HandleWriteHandles(s: State, rx: Context)
    requires Can(s, HandleWrite(rx)) && Checked(s, HandleWrite(rx))
    requires Contexts(s) && Handles(s.held, s.buffers, s.at)
    ensures var t := ApplyHandleWrite(s, rx); Handles(t.held, t.buffers, t.at)
  {
  }

  lemma HandleWriteReservations(s: State, rx: Context)
    requires Can(s, HandleWrite(rx)) && Checked(s, HandleWrite(rx))
    requires Contexts(s) && Handles(s.held, s.buffers, s.at) && Reservations(s.held, s.buffers, s.at)
    ensures var t := ApplyHandleWrite(s, rx); Handles(t.held, t.buffers, t.at) ==> Reservations(t.held, t.buffers, t.at)
  {
  }

  lemma HandleWriteSlots(s: State, rx: Context)
    requires Can(s, HandleWrite(rx)) && Checked(s, HandleWrite(rx))
    requires Contexts(s) && Slots(s)
    ensures var t := ApplyHandleWrite(s, rx); Slots(t)
  {
  }

  lemma HandleWriteOwned(s: State, rx: Context)
    requires Can(s, HandleWrite(rx)) && Checked(s, HandleWrite(rx))
    requires Owners(s)
    ensures var t := ApplyHandleWrite(s, rx); Owned(t)
  {
    var t := ApplyHandleWrite(s, rx);
    forall q | q in t.owner ensures Owns(t, q, t.owner[q]) {
      if q != s.table[Slot(rx.node, s.held[rx].idx)].buffer {
        assert Owns(s, q, s.owner[q]);
      }
    }
  }

  lemma HandleWriteOwnings(s: State, rx: Context)
    requires Can(s, HandleWrite(rx)) && Checked(s, HandleWrite(rx))
    requires Owners(s)
    ensures var t := ApplyHandleWrite(s, rx); Ownings(t)
  {
    var t := ApplyHandleWrite(s, rx);
    forall x | x in t.buffers
      ensures t.buffers[x].inlineBuf in t.owner && t.owner[t.buffers[x].inlineBuf] == OfBuffer(x) {
      assert s.owner[s.buffers[x].inlineBuf] == OfBuffer(x);
    }
    forall k | k in t.table ensures t.table[k].buffer in t.owner && t.owner[t.table[k].buffer] == OfSlot(k) {
      assert s.owner[s.table[k].buffer] == OfSlot(k);
    }
  }

  lemma HandleWriteOwners(s: State, rx: Context)
    requires Can(s, HandleWrite(rx)) && Checked(s, HandleWrite(rx))
    requires Owners(s)
    ensures var t := ApplyHandleWrite(s, rx); Owners(t)
  {
    HandleWriteOwned(s, rx);
    HandleWriteOwnings(s, rx);
  }

  lemma HandleWriteLocations(s: State, rx: Context)
    requires rx in s.held && s.held[rx].GotWrite? && Slot(rx.node, s.held[rx].idx) in s.table
    requires Locations(s) && s.table[Slot(rx.node, s.held[rx].idx)].buffer !in s.queue
    ensures var t := ApplyHandleWrite(s, rx); Locations(t)
  {
    var t := ApplyHandleWrite(s, rx);
    forall i | 0 <= i < |t.loc| ensures Located(t, i, t.loc[i]) {
      assert Located(s, i, s.loc[i]);
    }
  }

  lemma HandleWriteCarriers(s: State, rx: Context)
    requires Can(s, HandleWrite(rx)) && Checked(s, HandleWrite(rx))
    requires Slots(s) && CarriersFit(s)
    ensures var t := ApplyHandleWrite(s, rx); CarriersFit(t)
  {
    var t := ApplyHandleWrite(s, rx);
    forall c' | c' in t.held ensures CarrierFits(t, c', t.held[c']) {
      assert CarrierFits(s, c', s.held[c']);
      assert SlotOf(rx, s.held[rx]) == Some(Slot(rx.node, s.held[rx].idx));
      CarrierStays(s, t, c');
    }
  }

  lemma HandleWriteEntries(s: State, rx: Context)
    requires Can(s, HandleWrite(rx)) && Checked(s, HandleWrite(rx))
    requires CarriersFit(s) && EntriesFit(s)
    ensures var t := ApplyHandleWrite(s, rx); EntriesFit(t)
  {
    var t := ApplyHandleWrite(s, rx);
    forall k | k in t.table ensures EntryFits(t, t.table[k], k.node) {
      assert EntryFits(s, s.table[k], k.node);
    }
    forall q | q in t.queue && q != s.table[Slot(rx.node, s.held[rx].idx)].buffer ensures QueuedFits(t, q) {
      assert QueuedFits(s, q);
    }
    assert CarrierFits(s, rx, s.held[rx]);
  }

  lemma CompleteContexts(s: State, c: Context)
    requires Can(s, Complete(c)) && Checked(s, Complete(c))
    requires Contexts(s)
    ensures var t := ApplyComplete(s, c); Contexts(t)
  {
  }

  lemma CompleteHandles(s: State, c: Context)
    requires Can(s, Complete(c)) && Checked(s, Complete(c))
    requires Contexts(s) && Handles(s.held, s.buffers, s.at)
    ensures var t := ApplyComplete(s, c); Handles(t.held, t.buffers, t.at)
  {
  }

  lemma CompleteReservations(s: State, c: Context)
    requires Can(s, Complete(c)) && Checked(s, Complete(c))
    requires Contexts(s) && Handles(s.held, s.buffers, s.at) && Reservations(s.held, s.buffers, s.at)
    ensures var t := ApplyComplete(s, c); Handles(t.held, t.buffers, t.at) ==> Reservations(t.held, t.buffers, t.at)
  {
    var t := ApplyComplete(s, c);
    if Handles(t.held, t.buffers, t.at) {
      forall d | d in t.held && t.held[d].Reserved?
        ensures t.held[d].h in t.buffers && t.buffers[t.held[d].h].reserved == d
        ensures BeforeWrite(t.held[t.at[t.held[d].h]]) {
        assert s.held[d].Reserved? && HandleOf(s.held[c]) != Some(s.held[d].h);
      }
      forall h | h in t.buffers && BeforeWrite(t.held[t.at[h]])
        ensures t.buffers[h].reserved in t.held && t.held[t.buffers[h].reserved] == Reserved(h) {
        assert h in s.buffers && BeforeWrite(s.held[s.at[h]]);
      }
    }
  }

  lemma CompleteSlots(s: State, c: Context)
    requires Can(s, Complete(c)) && Checked(s, Complete(c))
    requires Contexts(s) && Slots(s)
    ensures var t := ApplyComplete(s, c); Slots(t)
  {
  }

  lemma CompleteOwners(s: State, c: Context)
    requires Can(s, Complete(c)) && Checked(s, Complete(c))
    requires Owners(s)
    ensures var t := ApplyComplete(s, c); Owners(t)
  {
    var t := ApplyComplete(s, c);
    forall p | p in t.owner ensures Owns(t, p, t.owner[p]) {
      assert Owns(s, p, s.owner[p]);
    }
  }

  lemma CompleteLocations(s: State, c: Context)
    requires Can(s, Complete(c)) && Checked(s, Complete(c))
    requires Locations(s) && (s.held[c].WriteSent? ==> s.held[c].h !in s.early)
    ensures var t := ApplyComplete(s, c); Locations(t)
  {
    var t := ApplyComplete(s, c);
    forall i | 0 <= i < |t.loc| ensures Located(t, i, t.loc[i]) {
      assert Located(s, i, s.loc[i]);
    }
  }

  lemma CompleteCarriers(s: State, c: Context)
    requires Can(s, Complete(c)) && Checked(s, Complete(c))
    requires Handles(s.held, s.buffers, s.at) && Owners(s) && CarriersFit(s)
    ensures var t := ApplyComplete(s, c); CarriersFit(t)
  {
    var t := ApplyComplete(s, c);
    forall c' | c' in t.held ensures CarrierFits(t, c', t.held[c']) {
      assert CarrierFits(s, c', s.held[c']);
      if s.held[c].WriteSent? {
        assert HandleOf(s.held[c]) == Some(s.held[c].h);
      }
      CarrierStays(s, t, c');
    }
  }

  lemma CompleteBuffers(s: State, c: Context)
    requires Can(s, Complete(c)) && Checked(s, Complete(c))
    requires Owners(s) && BuffersFit(s)
    ensures var t := ApplyComplete(s, c); BuffersFit(t)
  {
    var t := ApplyComplete(s, c);
    forall x | x in t.buffers ensures BufferFits(t, t.buffers[x]) {
      assert BufferFits(s, s.buffers[x]);
      assert s.owner[s.buffers[x].inlineBuf] == OfBuffer(x);
    }
  }

  lemma CompleteEntries(s: State, c: Context)
    requires Can(s, Complete(c)) && Checked(s, Complete(c))
    requires Owners(s) && EntriesFit(s)
    ensures var t := ApplyComplete(s, c); EntriesFit(t)
  {
    var t := ApplyComplete(s, c);
    forall k | k in t.table ensures EntryFits(t, t.table[k], k.node) {
      assert EntryFits(s, s.table[k], k.node);
      assert s.owner[s.table[k].buffer] == OfSlot(k);
    }
    forall q | q in t.queue ensures QueuedFits(t, q) {
      assert QueuedFits(s, q);
    }
  }

  lemma RecvOwned(s: State, p: Place)
    requires Can(s, Recv(p)) && Checked(s, Recv(p))
    requires Owners(s)
    ensures var t := ApplyRecv(s, p); Owned(t)
  {
    var t := ApplyRecv(s, p);
    forall q | q in t.owner ensures Owns(t, q, t.owner[q]) {
      if q != p {
        assert Owns(s, q, s.owner[q]);
      }
    }
  }

  /** A block that is not the one taken out of the queue keeps its owner. */
  lemma RecvOwner(s: State, p: Place, x: Place, o: Owner)
    requires Can(s, Recv(p)) && Checked(s, Recv(p)) && Ownings(s) && x in s.owner && s.owner[x] == o
    requires (o == OfQueue ==> x != p)
    ensures var t := ApplyRecv(s, p); x in t.owner && t.owner[x] == o
  {
    assert s.owner[p] == OfQueue;
  }

  lemma RecvOwnings(s: State, p: Place)
    requires Can(s, Recv(p)) && Checked(s, Recv(p))
    requires Owners(s)
    ensures var t := ApplyRecv(s, p); Ownings(t)
  {
    var t := ApplyRecv(s, p);
    forall x | x in t.buffers
      ensures t.buffers[x].inlineBuf in t.owner && t.owner[t.buffers[x].inlineBuf] == OfBuffer(x) {
      RecvOwner(s, p, s.buffers[x].inlineBuf, OfBuffer(x));
    }
    forall k | k in t.table ensures t.table[k].buffer in t.owner && t.owner[t.table[k].buffer] == OfSlot(k) {
      RecvOwner(s, p, s.table[k].buffer, OfSlot(k));
    }
    forall x | x in t.queue ensures x in t.owner && t.owner[x] == OfQueue {
      RecvOwner(s, p, x, OfQueue);
    }
  }

  lemma RecvOwners(s: State, p: Place)
    requires Can(s, Recv(p)) && Checked(s, Recv(p))
    requires Owners(s)
    ensures var t := ApplyRecv(s, p); Owners(t)
  {
    RecvOwned(s, p);
    RecvOwnings(s, p);
  }

  lemma RecvLocations(s: State, p: Place)
    requires Can(s, Recv(p)) && Checked(s, Recv(p))
    requires Locations(s)
    ensures var t := ApplyRecv(s, p); Locations(t)
  {
    var t := ApplyRecv(s, p);
    forall i | 0 <= i < |t.loc| ensures Located(t, i, t.loc[i]) {
      assert Located(s, i, s.loc[i]);
    }
  }

  lemma RecvCarriers(s: State, p: Place)
    requires Can(s, Recv(p)) && Checked(s, Recv(p))
    requires Owners(s) && CarriersFit(s)
    ensures var t := ApplyRecv(s, p); CarriersFit(t)
  {
    var t := ApplyRecv(s, p);
    forall c' | c' in t.held ensures CarrierFits(t, c', t.held[c']) {
      assert CarrierFits(s, c', s.held[c']);
      if s.held[c'].GotWrite? {
        var k := Slot(c'.node, s.held[c'].idx);
        assert s.owner[s.table[k].buffer] == OfSlot(k);
      }
      CarrierStays(s, t, c');
    }
  }

  lemma RecvBuffers(s: State, p: Place)
    requires Can(s, Recv(p)) && Checked(s, Recv(p))
    requires Owners(s) && BuffersFit(s)
    ensures var t := ApplyRecv(s, p); BuffersFit(t)
  {
    var t := ApplyRecv(s, p);
    forall x | x in t.buffers ensures BufferFits(t, t.buffers[x]) {
      assert BufferFits(s, s.buffers[x]);
      assert s.owner[s.buffers[x].inlineBuf] == OfBuffer(x);
    }
  }

  /** Slots and queued messages do not mind a block that is not theirs. */
  lemma EntriesKept(s: State, t: State, p: Place)
    requires EntriesFit(s) && t.table == s.table && t.sent == s.sent && (t.mem == s.mem || t.mem == s.mem - {p})
    requires NoSlots(s, p)
    requires forall q :: q in t.queue ==> q != p && q in s.queue && t.queue[q] == s.queue[q]
    ensures EntriesFit(t)
  {
    forall k | k in t.table ensures EntryFits(t, t.table[k], k.node) {
      assert EntryFits(s, s.table[k], k.node);
    }
    forall q | q in t.queue ensures QueuedFits(t, q) {
      assert QueuedFits(s, q);
    }
  }

  /** The buffer of no slot. */
  ghost predicate NoSlots(s: State, p: Place) {
    forall k :: k in s.table ==> s.table[k].buffer != p
  }

  lemma QueuedApart(s: State, p: Place)
    requires Ownings(s) && p in s.queue
    ensures NoSlots(s, p)
  {
    forall k | k in s.table ensures s.table[k].buffer != p {
      assert s.owner[s.table[k].buffer] == OfSlot(k) && s.owner[p] == OfQueue;
    }
  }

  lemma BlockApart(s: State, p: Place)
    requires Ownings(s) && p in s.blocks
    ensures NoSlots(s, p) && p !in s.queue
  {
    forall k | k in s.table ensures s.table[k].buffer != p {
      assert s.owner[s.table[k].buffer] == OfSlot(k) && s.owner[p] == OfBlock;
    }
  }

  lemma RecvEntries(s: State, p: Place)
    requires Can(s, Recv(p)) && Checked(s, Recv(p)) && NoSlots(s, p) && EntriesFit(s)
    ensures var t := ApplyRecv(s, p); EntriesFit(t)
  {
    EntriesKept(s, ApplyRecv(s, p), p);
  }

  lemma RecvDeliveries(s: State, p: Place)
    requires Can(s, Recv(p)) && Checked(s, Recv(p))
    requires EntriesFit(s) && DeliveriesFit(s.sent, s.delivered)
    ensures var t := ApplyRecv(s, p); DeliveriesFit(t.sent, t.delivered)
  {
    assert QueuedFits(s, p);
    UnpackIntact(s, p);
  }

  lemma ReleaseOwners(s: State, p: Place)
    requires Can(s, Release(p)) && Checked(s, Release(p))
    requires Owners(s)
    ensures var t := ApplyRelease(s, p); Owners(t)
  {
  }

  lemma ReleaseCarriers(s: State, p: Place)
    requires Can(s, Release(p)) && Checked(s, Release(p))
    requires Owners(s) && CarriersFit(s)
    ensures var t := ApplyRelease(s, p); CarriersFit(t)
  {
    var t := ApplyRelease(s, p);
    forall c' | c' in t.held ensures CarrierFits(t, c', t.held[c']) {
      assert CarrierFits(s, c', s.held[c']);
      if s.held[c'].GotWrite? {
        var k := Slot(c'.node, s.held[c'].idx);
        assert s.owner[s.table[k].buffer] == OfSlot(k);
      }
      CarrierStays(s, t, c');
    }
  }

  lemma ReleaseBuffers(s: State, p: Place)
    requires Can(s, Release(p)) && Checked(s, Release(p))
    requires Owners(s) && BuffersFit(s)
    ensures var t := ApplyRelease(s, p); BuffersFit(t)
  {
    var t := ApplyRelease(s, p);
    forall x | x in t.buffers ensures BufferFits(t, t.buffers[x]) {
      assert BufferFits(s, s.buffers[x]);
      assert s.owner[s.buffers[x].inlineBuf] == OfBuffer(x);
    }
  }

  lemma ReleaseEntries(s: State, p: Place)
    requires p in s.blocks && s.blocks[p] > 0 && NoSlots(s, p) && p !in s.queue && EntriesFit(s)
    ensures var t := ApplyRelease(s, p); EntriesFit(t)
  {
    EntriesKept(s, ApplyRelease(s, p), p);
  }

  // ---------- every reachable state ----------

  lemma SendKeeps(s: State, m: Message, h: Handle, b: Place, w: Context, c: Context)
    requires Inv(s) && Can(s, Send(m, h, b, w, c)) && Checked(s, Send(m, h, b, w, c))
    ensures Inv(ApplySend(s, m, h, b, w, c))
  {
    SendContexts(s, m, h, b, w, c);
    SendHandles(s, m, h, b, w, c);
    SendReservations(s, m, h, b, w, c);
    SendSlots(s, m, h, b, w, c);
    SendOwners(s, m, h, b, w, c);
    SendLocations(s, m, h, b, w, c);
    SendCarriers(s, m, h, b, w, c);
    SendBuffers(s, m, h, b, w, c);
    SendEntries(s, m, h, b, w, c);
    SendDeliveries(s, m, h, b, w, c);
  }

  lemma LandKeeps(s: State, c: Context, rx: Context)
    requires Inv(s) && Can(s, Land(c, rx)) && Checked(s, Land(c, rx))
    ensures Inv(ApplyLand(s, c, rx))
  {
    LandContexts(s, c, rx);
    LandHandles(s, c, rx);
    LandReservations(s, c, rx);
    LandSlots(s, c, rx);
    LandCarriers(s, c, rx);
    MemoryUntouched(s, ApplyLand(s, c, rx));
    LocationsUntouched(s, ApplyLand(s, c, rx));
  }

  lemma HandleStartKeeps(s: State, rx: Context, r: Context, p: Place, idx: nat, junk: seq<Byte>)
    requires Inv(s) && Can(s, HandleStart(rx, r, p, idx, junk)) && Checked(s, HandleStart(rx, r, p, idx, junk))
    ensures Inv(ApplyHandleStart(s, rx, r, p, idx, junk))
  {
    HandleStartContexts(s, rx, r, p, idx, junk);
    HandleStartHandles(s, rx, r, p, idx, junk);
    HandleStartReservations(s, rx, r, p, idx, junk);
    HandleStartSlots(s, rx, r, p, idx, junk);
    HandleStartOwners(s, rx, r, p, idx, junk);
    assert CarrierFits(s, rx, s.held[rx]);
    HandleStartLocations(s, rx, r, p, idx, junk);
    HandleStartCarriers(s, rx, r, p, idx, junk);
    HandleStartBuffers(s, rx, r, p, idx, junk);
    HandleStartEntries(s, rx, r, p, idx, junk);
  }

  lemma HandleReplyKeeps(s: State, rx: Context)
    requires Inv(s) && Can(s, HandleReply(rx)) && Checked(s, HandleReply(rx))
    ensures Inv(ApplyHandleReply(s, rx))
  {
    HandleReplyContexts(s, rx);
    HandleReplyHandles(s, rx);
    HandleReplyReservations(s, rx);
    ReplyPeer(s, rx);
    HandleReplySlots(s, rx);
    HandleReplyCarriers(s, rx);
    MemoryUntouched(s, ApplyHandleReply(s, rx));
    LocationsUntouched(s, ApplyHandleReply(s, rx));
  }

  lemma LandWriteKeeps(s: State, c: Context, rx: Context)
    requires Inv(s) && Can(s, LandWrite(c, rx)) && Checked(s, LandWrite(c, rx))
    ensures Inv(ApplyLandWrite(s, c, rx))
  {
    LandWriteContexts(s, c, rx);
    LandWriteHandles(s, c, rx);
    LandWriteReservations(s, c, rx);
    LandWriteSlots(s, c, rx);
    LandWriteOwners(s, c, rx);
    LandWriteCarriers(s, c, rx);
    LandWriteBuffers(s, c, rx);
    LandWriteEntries(s, c, rx);
    LocationsUntouched(s, ApplyLandWrite(s, c, rx));
  }

  lemma HandleWriteKeeps(s: State, rx: Context)
    requires Inv(s) && Can(s, HandleWrite(rx)) && Checked(s, HandleWrite(rx))
    ensures Inv(ApplyHandleWrite(s, rx))
  {
    HandleWriteContexts(s, rx);
    HandleWriteHandles(s, rx);
    HandleWriteReservations(s, rx);
    HandleWriteSlots(s, rx);
    HandleWriteOwners(s, rx);
    var b := s.table[Slot(rx.node, s.held[rx].idx)].buffer;
    assert s.owner[b] == OfSlot(Slot(rx.node, s.held[rx].idx));
    HandleWriteLocations(s, rx);
    HandleWriteCarriers(s, rx);
    HandleWriteEntries(s, rx);
    BuffersUntouched(s, ApplyHandleWrite(s, rx));
  }

  lemma CompleteKeeps(s: State, c: Context)
    requires Inv(s) && Can(s, Complete(c)) && Checked(s, Complete(c))
    ensures Inv(ApplyComplete(s, c))
  {
    CompleteContexts(s, c);
    CompleteHandles(s, c);
    CompleteReservations(s, c);
    CompleteSlots(s, c);
    CompleteOwners(s, c);
    assert CarrierFits(s, c, s.held[c]);
    CompleteLocations(s, c);
    CompleteCarriers(s, c);
    CompleteBuffers(s, c);
    CompleteEntries(s, c);
  }

  lemma RecvKeeps(s: State, p: Place)
    requires Inv(s) && Can(s, Recv(p)) && Checked(s, Recv(p))
    ensures Inv(ApplyRecv(s, p))
  {
    RecvOwners(s, p);
    RecvLocations(s, p);
    RecvCarriers(s, p);
    RecvBuffers(s, p);
    QueuedApart(s, p);
    RecvEntries(s, p);
    RecvDeliveries(s, p);
    FlowUntouched(s, ApplyRecv(s, p));
  }

  lemma ReleaseKeeps(s: State, p: Place)
    requires Inv(s) && Can(s, Release(p)) && Checked(s, Release(p))
    ensures Inv(ApplyRelease(s, p))
  {
    ReleaseOwners(s, p);
    ReleaseCarriers(s, p);
    ReleaseBuffers(s, p);
    BlockApart(s, p);
    ReleaseEntries(s, p);
    FlowUntouched(s, ApplyRelease(s, p));
    LocationsUntouched(s, ApplyRelease(s, p));
  }

  lemma ArrivalKeeps(s: State, e: Event)
    requires Inv(s) && Can(s, e) && Checked(s, e) && (e.HandleStart? || e.HandleReply? || e.HandleWrite? || e.Complete?)
    ensures Inv(Apply(s, e))
  {
    match e
    case HandleStart(rx, r, p, idx, junk) => HandleStartKeeps(s, rx, r, p, idx, junk);
    case HandleReply(rx) => HandleReplyKeeps(s, rx);
    case HandleWrite(rx) => HandleWriteKeeps(s, rx);
    case Complete(c) => CompleteKeeps(s, c);
  }

  lemma HandoverKeeps(s: State, e: Event)
    requires Inv(s) && Can(s, e) && Checked(s, e) && (e.LandWrite? || e.Recv? || e.Release?)
    ensures Inv(Apply(s, e))
  {
    match e
    case LandWrite(c, rx) => LandWriteKeeps(s, c, rx);
    case Recv(p) => RecvKeeps(s, p);
    case Release(p) => ReleaseKeeps(s, p);
  }

  /** Everything that holds keeps holding, whatever the event, if no check fails. */
  lemma StepKeeps(s: State, e: Event)
    requires Inv(s) && Can(s, e) && Checked(s, e)
    ensures Inv(Apply(s, e))
  {
    match e
    case Send(m, h, b, w, c) => SendKeeps(s, m, h, b, w, c);
    case Land(c, rx) => LandKeeps(s, c, rx);
    case LandWrite(_, _) => HandoverKeeps(s, e);
    case Recv(_) => HandoverKeeps(s, e);
    case Release(_) => HandoverKeeps(s, e);
    case _ => ArrivalKeeps(s, e);
  }

  /** A run of the protocol: any events the surroundings allow, in any order. */
  ghost predicate Run(ss: seq<State>, es: seq<Event>, all: set<Context>, allSlots: set<Slot>) {
    && |ss| == |es| + 1 && ss[0] == Init(all, allSlots)
    && forall i :: 0 <= i < |es| ==> Follows(ss[i], es[i], ss[i + 1])
  }

  /** A failing check ends in an abort or worse: what comes after it can be anything. */
  ghost predicate Follows(s: State, e: Event, t: State) {
    Can(s, e) && (Checked(s, e) ==> t == Apply(s, e))
  }

  ghost predicate Passes(s: State, e: Event) {
    Can(s, e) && Checked(s, e)
  }

  lemma FollowsKeeps(s: State, e: Event, t: State)
    requires Inv(s) && Follows(s, e, t) && Passes(s, e)
    ensures Inv(t)
  {
    StepKeeps(s, e);
  }

  /** Every state of every run is in order, as long as no check has failed. */
  lemma {:induction false} RunsAreSafe(ss: seq<State>, es: seq<Event>, all: set<Context>, allSlots: set<Slot>, k: nat)
    requires Run(ss, es, all, allSlots) && k <= |es| && forall i :: 0 <= i < k ==> Passes(ss[i], es[i])
    ensures Inv(ss[k])
  {
    if k == 0 {
      InitInv(all, allSlots);
    } else {
      RunsAreSafe(ss, es, all, allSlots, k - 1);
      FollowsKeeps(ss[k - 1], es[k - 1], ss[k]);
    }
  }

  /** No message is delivered twice. */
  lemma DeliveredOnce(s: State, j: nat, k: nat)
    requires Inv(s) && j < k < |s.delivered|
    ensures s.delivered[j].id != s.delivered[k].id
  {
    assert s.loc[s.delivered[j].id] == Done(j) && s.loc[s.delivered[k].id] == Done(k);
  }

  /** A message is delivered where it was sent to, and with its segments exactly if each is below
      2^32 bytes. */
  lemma DeliveredAsSent(s: State, k: nat)
    requires Inv(s) && k < |s.delivered|
    ensures var d := s.delivered[k]; d.id < |s.sent| && var m := s.sent[d.id];
      && d.node == m.to && d.meta == m.meta && |d.data| == |m.data| && (d.data == m.data <==> Short(m.data))
  {
    assert Intact(s.delivered[k], s.sent);
    var m := s.sent[s.delivered[k].id];
    SlicedBack(m.data);
    ConcatLength(m.data);
  }

  /** Each context is free or held, each slot free or filled, and each block of memory has one
      owner who will free it: no two of the message buffers, slots, queue entries and blocks
      handed out share one. */
  lemma Exclusive(s: State)
    requires Inv(s)
    ensures forall c :: c in s.all ==> (c in s.free <==> c !in s.held)
    ensures forall k :: k in s.allSlots ==> (k in s.freeSlots <==> k !in s.table)
    ensures forall h, h' ::
      h in s.buffers && h' in s.buffers && s.buffers[h].inlineBuf == s.buffers[h'].inlineBuf ==> h == h'
    ensures forall k, k' :: k in s.table && k' in s.table && s.table[k].buffer == s.table[k'].buffer ==> k == k'
    ensures forall h, k :: h in s.buffers && k in s.table ==> s.buffers[h].inlineBuf != s.table[k].buffer
    ensures s.queue.Keys !! s.blocks.Keys
  {
    forall c | c in s.all ensures c in s.free <==> c !in s.held {
      assert c in s.free + s.held.Keys;
    }
    forall k | k in s.allSlots ensures k in s.freeSlots <==> k !in s.table {
      assert k in s.freeSlots + s.table.Keys;
    }
  }

  /** When nothing is under way, nothing was lost and nothing leaked: every message has been
      delivered, every context and slot is free, and all memory has been freed. */
  lemma NothingLost(s: State)
    requires Inv(s) && s.held == map[] && s.queue == map[] && s.blocks == map[]
    ensures s.free == s.all && s.freeSlots == s.allSlots && s.mem == map[] && s.buffers == map[]
    ensures forall i :: 0 <= i < |s.sent| ==>
      s.loc[i].Done? && s.loc[i].k < |s.delivered| && s.delivered[s.loc[i].k].id == i
  {
    assert s.buffers == map[];
    assert s.table == map[];
    forall p ensures p !in s.owner {
      assert p in s.owner ==> Owns(s, p, s.owner[p]);
    }
    assert s.mem.Keys == {};
    forall i | 0 <= i < |s.sent|
      ensures s.loc[i].Done? && s.loc[i].k < |s.delivered| && s.delivered[s.loc[i].k].id == i {
      assert Located(s, i, s.loc[i]);
    }
  }
}
