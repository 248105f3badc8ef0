/**
 Progress of the rendezvous (src/ibverbs_van.h).

 What is under way has a weight, which a send raises by a fixed amount and every other event
 lowers.  So a run takes a bounded number of events for each message.
 */
module RendezvousProgress {
  import opened Rendezvous

  // ---------- weights of finite maps ----------

  ghost function Weigh<K(!new)>(m: map<K, nat>): nat {
    if m == map[] then 0
    else
      SomeKey(m);
      var k :| k in m;
      m[k] + Weigh(m - {k})
  }

  lemma SomeKey<K, V>(m: map<K, V>)
    requires m != map[]
    ensures exists k :: k in m
  {
    assert m.Keys == {} ==> m == map[];
  }

  lemma {:induction false} WeighDrop<K(!new)>(m: map<K, nat>, k: K)
    requires k in m
    ensures Weigh(m) == m[k] + Weigh(m - {k})
    decreases |m|
  {
    SomeKey(m);
    var j :| j in m && Weigh(m) == m[j] + Weigh(m - {j});
    if j != k {
      WeighDrop(m - {j}, k);
      WeighDrop(m - {k}, j);
      assert m - {j} - {k} == m - {k} - {j};
    }
  }

  lemma WeighAdd<K(!new)>(m: map<K, nat>, k: K, v: nat)
    requires k !in m
    ensures Weigh(m[k := v]) == Weigh(m) + v
  {
    WeighDrop(m[k := v], k);
    assert m[k := v] - {k} == m;
  }

  lemma WeighSet<K(!new)>(m: map<K, nat>, k: K, v: nat)
    requires k in m
    ensures Weigh(m[k := v]) + m[k] == Weigh(m) + v
  {
    WeighDrop(m[k := v], k);
    WeighDrop(m, k);
    assert m[k := v] - {k} == m - {k};
  }

  // ---------- the weight of what is under way ----------

  /** How many events an operation can still bring about. */
  function Weight(x: Carrier): nat {
    match x
    case Start(_, _, _) => 14
    case GotStart(_, _, _) => 12
    case Reply(_, _, _) => 11
    case GotReply(_, _, _) => 9
    case Write(_, _, _) => 8
    case GotWrite(_) => 6
    case Reserved(_) => 0
    case _ => 1
  }

  ghost function Weights(held: map<Context, Carrier>): map<Context, nat> {
    map c | c in held :: Weight(held[c])
  }

  ghost function Load(held: map<Context, Carrier>): nat {
    Weigh(Weights(held))
  }

  lemma LoadAdd(held: map<Context, Carrier>, c: Context, x: Carrier)
    requires c !in held
    ensures Load(held[c := x]) == Load(held) + Weight(x)
  {
    WeighAdd(Weights(held), c, Weight(x));
    assert Weights(held[c := x]) == Weights(held)[c := Weight(x)];
  }

  lemma LoadSet(held: map<Context, Carrier>, c: Context, x: Carrier)
    requires c in held
    ensures Load(held[c := x]) + Weight(held[c]) == Load(held) + Weight(x)
  {
    WeighSet(Weights(held), c, Weight(x));
    assert Weights(held[c := x]) == Weights(held)[c := Weight(x)];
  }

  lemma LoadDrop(held: map<Context, Carrier>, c: Context)
    requires c in held
    ensures Load(held - {c}) + Weight(held[c]) == Load(held)
  {
    WeighDrop(Weights(held), c);
    assert Weights(held - {c}) == Weights(held) - {c};
  }

  /** An operation goes over into two. */
  lemma LoadSplit(held: map<Context, Carrier>, c: Context, x: Carrier, d: Context, y: Carrier)
    requires c in held && d !in held
    ensures Load(held[c := x][d := y]) + Weight(held[c]) == Load(held) + Weight(x) + Weight(y)
  {
    LoadSet(held, c, x);
    LoadAdd(held[c := x], d, y);
  }

  /** An operation goes over to another context. */
  lemma LoadMove(held: map<Context, Carrier>, c: Context, d: Context, y: Carrier)
    requires c in held && d !in held
    ensures Load((held - {c})[d := y]) + Weight(held[c]) == Load(held) + Weight(y)
  {
    LoadDrop(held, c);
    LoadAdd(held - {c}, d, y);
  }

  /** A queued message can be received, and each of its at most four segments released. */
  ghost function UnderWay(s: State): nat {
    Load(s.held) + 5 * |s.queue| + Weigh(s.blocks)
  }

  const EVENTS_PER_MESSAGE: nat := 14

  // ---------- every event but a send lowers it ----------

  lemma SendRaises(s: State, m: Message, h: Handle, b: Place, w: Context, c: Context)
    requires Can(s, Send(m, h, b, w, c)) && w !in s.held && c !in s.held
    ensures UnderWay(ApplySend(s, m, h, b, w, c)) == UnderWay(s) + EVENTS_PER_MESSAGE
  {
    LoadAdd(s.held, w, Reserved(h));
    LoadAdd(s.held[w := Reserved(h)], c, Start(h, |m.meta|, Lens(m.data)));
  }

  lemma LessHeld(s: State, t: State)
    requires t.queue == s.queue && t.blocks == s.blocks && Load(t.held) < Load(s.held)
    ensures UnderWay(t) < UnderWay(s)
  {
  }

  lemma SplitLowers(held: map<Context, Carrier>, c: Context, sent: Carrier, rx: Context, got: Carrier)
    requires c in held && rx !in held && Weight(sent) + Weight(got) < Weight(held[c])
    ensures Load(held[c := sent][rx := got]) < Load(held)
  {
    LoadSplit(held, c, sent, rx, got);
  }

  lemma LandSplits(s: State, c: Context, rx: Context) returns (sent: Carrier, got: Carrier)
    requires Can(s, Land(c, rx))
    ensures var t := ApplyLand(s, c, rx);
      t.held == s.held[c := sent][rx := got] && t.queue == s.queue && t.blocks == s.blocks
    ensures Weight(sent) + Weight(got) < Weight(s.held[c])
  {
    var op := s.held[c];
    sent := if op.Start? then StartSent else ReplySent;
    got := if op.Start? then GotStart(op.h, op.metaLen, op.lens) else GotReply(op.h, op.place, op.idx);
  }

  lemma LandLowers(s: State, c: Context, rx: Context)
    requires Can(s, Land(c, rx)) && rx !in s.held
    ensures UnderWay(ApplyLand(s, c, rx)) < UnderWay(s)
  {
    var sent, got := LandSplits(s, c, rx);
    SplitLowers(s.held, c, sent, rx, got);
    LessHeld(s, ApplyLand(s, c, rx));
  }

  lemma HandleStartLowers(s: State, rx: Context, r: Context, p: Place, idx: nat, junk: seq<Byte>)
    requires Can(s, HandleStart(rx, r, p, idx, junk)) && r !in s.held
    ensures UnderWay(ApplyHandleStart(s, rx, r, p, idx, junk)) < UnderWay(s)
  {
    LoadMove(s.held, rx, r, Reply(s.held[rx].h, p, idx));
    LessHeld(s, ApplyHandleStart(s, rx, r, p, idx, junk));
  }

  lemma HandleReplyLowers(s: State, rx: Context)
    requires Can(s, HandleReply(rx)) && Checked(s, HandleReply(rx))
    ensures UnderWay(ApplyHandleReply(s, rx)) < UnderWay(s)
  {
    var got := s.held[rx];
    LoadDrop(s.held, rx);
    LoadSet(s.held - {rx}, s.buffers[got.h].reserved, Write(got.h, got.place, got.idx));
    LessHeld(s, ApplyHandleReply(s, rx));
  }

  lemma LandWriteLowers(s: State, c: Context, rx: Context)
    requires Can(s, LandWrite(c, rx)) && rx !in s.held && Checked(s, LandWrite(c, rx))
    ensures UnderWay(ApplyLandWrite(s, c, rx)) < UnderWay(s)
  {
    var op := s.held[c];
    LoadSplit(s.held, c, WriteSent(op.h), rx, GotWrite(op.idx));
    LessHeld(s, ApplyLandWrite(s, c, rx));
  }

  lemma Queueing(held: map<Context, Carrier>, queue: map<Place, BufferContext>, rx: Context, b: BufferContext)
    requires rx in held && held[rx].GotWrite?
    ensures Load(held - {rx}) + 5 * |queue[b.buffer := b]| < Load(held) + 5 * |queue|
  {
    LoadDrop(held, rx);
    assert queue[b.buffer := b].Keys == queue.Keys + {b.buffer};
  }

  lemma HandleWriteLowers(s: State, rx: Context)
    requires Can(s, HandleWrite(rx)) && Checked(s, HandleWrite(rx))
    ensures UnderWay(ApplyHandleWrite(s, rx)) < UnderWay(s)
  {
    Queueing(s.held, s.queue, rx, s.table[Slot(rx.node, s.held[rx].idx)]);
  }

  lemma CompleteLowers(s: State, c: Context)
    requires Can(s, Complete(c)) && Checked(s, Complete(c))
    ensures UnderWay(ApplyComplete(s, c)) < UnderWay(s)
  {
    LoadDrop(s.held, c);
  }

  lemma {:induction false} LensCount(data: seq<seq<Byte>>)
    ensures |Lens(data)| == |data|
  {
    if data != [] {
      LensCount(data[1..]);
    }
  }

  lemma Receiving(queue: map<Place, BufferContext>, blocks: map<Place, nat>, p: Place, n: nat)
    requires p in queue && p !in blocks && n <= MAX_DATA_FIELDS
    ensures 5 * |queue - {p}| + Weigh(if n > 0 then blocks[p := n] else blocks) < 5 * |queue| + Weigh(blocks)
  {
    assert (queue - {p}).Keys == queue.Keys - {p};
    WeighAdd(blocks, p, n);
  }

  lemma FewSegments(s: State, p: Place)
    requires p in s.queue && EntriesFit(s) && DeliveriesFit(s.sent, s.delivered)
    ensures |s.queue[p].lens| <= MAX_DATA_FIELDS
  {
    assert QueuedFits(s, p);
    var m := s.sent[s.queue[p].id];
    assert Sendable(m);
    LensCount(m.data);
  }

  lemma RecvLowers(s: State, p: Place)
    requires Can(s, Recv(p)) && Checked(s, Recv(p)) && p !in s.blocks && |s.queue[p].lens| <= MAX_DATA_FIELDS
    ensures UnderWay(ApplyRecv(s, p)) < UnderWay(s)
  {
    Receiving(s.queue, s.blocks, p, |s.queue[p].lens|);
  }

  lemma Releasing(blocks: map<Place, nat>, p: Place)
    requires p in blocks && blocks[p] > 0
    ensures Weigh(if blocks[p] == 1 then blocks - {p} else blocks[p := blocks[p] - 1]) < Weigh(blocks)
  {
    WeighDrop(blocks, p);
    WeighSet(blocks, p, blocks[p] - 1);
  }

  lemma ReleaseLowers(s: State, p: Place)
    requires Can(s, Release(p)) && Checked(s, Release(p))
    ensures UnderWay(ApplyRelease(s, p)) < UnderWay(s)
  {
    Releasing(s.blocks, p);
  }

  /** A send brings at most so many events about, and every other event is one of them. */
  lemma StepLowers(s: State, e: Event)
    requires Inv(s) && Can(s, e) && Checked(s, e)
    ensures e.Send? ==> UnderWay(Apply(s, e)) == UnderWay(s) + EVENTS_PER_MESSAGE
    ensures !e.Send? ==> UnderWay(Apply(s, e)) < UnderWay(s)
  {
    match e
    case Send(m, h, b, w, c) => SendRaises(s, m, h, b, w, c);
    case Land(c, rx) => LandLowers(s, c, rx);
    case HandleStart(rx, r, p, idx, junk) => HandleStartLowers(s, rx, r, p, idx, junk);
    case HandleReply(rx) => HandleReplyLowers(s, rx);
    case LandWrite(c, rx) => LandWriteLowers(s, c, rx);
    case HandleWrite(rx) => HandleWriteLowers(s, rx);
    case Complete(c) => CompleteLowers(s, c);
    case Recv(p) =>
      FewSegments(s, p);
      assert s.owner[p] == OfQueue;
      RecvLowers(s, p);
    case Release(p) => ReleaseLowers(s, p);
  }

  // ---------- runs ----------

  function Sends(es: seq<Event>): nat {
    if es == [] then 0 else Sends(es[..|es| - 1]) + if es[|es| - 1].Send? then 1 else 0
  }

  lemma FollowsLowers(s: State, e: Event, t: State)
    requires Inv(s) && Follows(s, e, t) && Passes(s, e)
    ensures 1 + UnderWay(t) <= UnderWay(s) + if e.Send? then EVENTS_PER_MESSAGE + 1 else 0
  {
    StepLowers(s, e);
  }

  lemma SendsMore(es: seq<Event>, k: nat)
    requires k < |es|
    ensures Sends(es[..k + 1]) == Sends(es[..k]) + if es[k].Send? then 1 else 0
  {
    assert es[..k + 1][..k] == es[..k];
  }

  /** However the events interleave, a run takes at most fifteen for each message: its send and
      those that the send brings about. */
  lemma {:induction false} RunsAreBounded(ss: seq<State>, es: seq<Event>, all: set<Context>, allSlots: set<Slot>,
                                          k: nat)
    requires Run(ss, es, all, allSlots) && k <= |es| && forall i :: 0 <= i < k ==> Passes(ss[i], es[i])
    ensures k + UnderWay(ss[k]) <= (EVENTS_PER_MESSAGE + 1) * Sends(es[..k])
  {
    if k == 0 {
      assert Weights(map[]) == map[];
    } else {
      var i := k - 1;
      RunsAreBounded(ss, es, all, allSlots, i);
      RunsAreSafe(ss, es, all, allSlots, i);
      FollowsLowers(ss[i], es[i], ss[i + 1]);
      SendsMore(es, i);
    }
  }
}
