/**
 How many contexts the rendezvous needs (src/ibverbs_van.h).

 The queues of contexts have fixed depths.  If a connection has more receive contexts at one end
 than write contexts at the other, the protocol does not get stuck: where only a send is possible,
 everything has been delivered.
 */
module RendezvousDepth {
  import opened Collections
  import opened Options
  import opened Rendezvous

  // ---------- which contexts hold what ----------

  predicate KindFits(x: Carrier, kind: Kind) {
    match x
    case Start(_, _, _) => kind.StartKind?
    case StartSent => kind.StartKind?
    case Reply(_, _, _) => kind.ReplyKind?
    case ReplySent => kind.ReplyKind?
    case Reserved(_) => kind.WriteKind?
    case Write(_, _, _) => kind.WriteKind?
    case WriteSent(_) => kind.WriteKind?
    case _ => kind.ReceiveKind?
  }

  ghost predicate Kinds(held: map<Context, Carrier>) {
    forall c :: c in held ==> KindFits(held[c], c.kind)
  }

  lemma KindsSet(held: map<Context, Carrier>, c: Context, x: Carrier)
    requires Kinds(held) && KindFits(x, c.kind)
    ensures Kinds(held[c := x])
  {
  }

  lemma KindsDrop(held: map<Context, Carrier>, c: Context)
    requires Kinds(held)
    ensures Kinds(held - {c})
  {
  }

  lemma LandKinds(s: State, c: Context, rx: Context)
    requires Kinds(s.held) && Can(s, Land(c, rx))
    ensures Kinds(ApplyLand(s, c, rx).held)
  {
    assert KindFits(s.held[c], c.kind);
    KindsSet(s.held, c, if s.held[c].Start? then StartSent else ReplySent);
    KindsSet(s.held[c := if s.held[c].Start? then StartSent else ReplySent], rx, ApplyLand(s, c, rx).held[rx]);
  }

  lemma LandWriteKinds(s: State, c: Context, rx: Context)
    requires Kinds(s.held) && Can(s, LandWrite(c, rx)) && Checked(s, LandWrite(c, rx))
    ensures Kinds(ApplyLandWrite(s, c, rx).held)
  {
    assert KindFits(s.held[c], c.kind);
    KindsSet(s.held, c, WriteSent(s.held[c].h));
    KindsSet(s.held[c := WriteSent(s.held[c].h)], rx, GotWrite(s.held[c].idx));
  }

  lemma HandleReplyKinds(s: State, rx: Context)
    requires Kinds(s.held) && Can(s, HandleReply(rx)) && Checked(s, HandleReply(rx))
    ensures Kinds(ApplyHandleReply(s, rx).held)
  {
    var got := s.held[rx];
    var w := s.buffers[got.h].reserved;
    assert KindFits(s.held[w], w.kind);
    KindsDrop(s.held, rx);
    KindsSet(s.held - {rx}, w, Write(got.h, got.place, got.idx));
  }

  lemma SendKinds(s: State, m: Message, h: Handle, b: Place, w: Context, c: Context)
    requires Kinds(s.held) && w.kind.WriteKind? && c.kind.StartKind?
    ensures Kinds(ApplySend(s, m, h, b, w, c).held)
  {
    KindsSet(s.held, w, Reserved(h));
    KindsSet(s.held[w := Reserved(h)], c, Start(h, |m.meta|, Lens(m.data)));
  }

  lemma KindsKeep(s: State, e: Event)
    requires Kinds(s.held) && Passes(s, e)
    ensures Kinds(Apply(s, e).held)
  {
    match e
    case Send(m, h, b, w, c) => SendKinds(s, m, h, b, w, c);
    case Land(c, rx) => LandKinds(s, c, rx);
    case HandleStart(rx, r, p, idx, junk) =>
      KindsDrop(s.held, rx);
      KindsSet(s.held - {rx}, r, Reply(s.held[rx].h, p, idx));
    case HandleReply(rx) => HandleReplyKinds(s, rx);
    case LandWrite(c, rx) => LandWriteKinds(s, c, rx);
    case HandleWrite(rx) => KindsDrop(s.held, rx);
    case Complete(c) => KindsDrop(s.held, c);
    case Recv(p) =>
    case Release(p) =>
  }

  lemma DepthsStay(s: State, e: Event)
    requires Passes(s, e)
    ensures Apply(s, e).all == s.all && Apply(s, e).allSlots == s.allSlots
  {
  }

  // ---------- counting ----------

  function Of(all: set<Context>, kind: Kind, node: nat, peer: nat): set<Context> {
    set c | c in all && c.kind == kind && c.node == node && c.peer == peer
  }

  function WritesTowards(all: set<Context>, node: nat): set<Context> {
    set c | c in all && c.kind.WriteKind? && c.peer == node
  }

  function SlotsAt(slots: set<Slot>, node: nat): set<Slot> {
    set t | t in slots && t.node == node
  }

  // ---------- STARTs that wait ----------

  /** A START that has been received keeps the write context of its message. */
  ghost predicate Parked(s: State, rx: Context) {
    && rx in s.held && s.held[rx].GotStart?
    && var h := s.held[rx].h;
    && h in s.buffers && h in s.at && s.at[h] == rx
    && s.buffers[h].reserved in s.held && s.held[s.buffers[h].reserved] == Reserved(h)
  }

  lemma IsParked(s: State, rx: Context)
    requires Handles(s.held, s.buffers, s.at) && Reservations(s.held, s.buffers, s.at)
    requires rx in s.held && s.held[rx].GotStart?
    ensures Parked(s, rx)
  {
    assert HandleOf(s.held[rx]) == Some(s.held[rx].h);
  }

  lemma ParkedPlace(s: State, rx: Context)
    requires Parked(s, rx) && Contexts(s) && Kinds(s.held) && CarriersFit(s) && BuffersFit(s)
    ensures rx in Of(s.all, ReceiveKind, rx.node, rx.peer)
    ensures s.buffers[s.held[rx].h].reserved in Of(s.all, WriteKind, rx.peer, rx.node)
  {
    var h := s.held[rx].h;
    var w := s.buffers[h].reserved;
    assert CarrierFits(s, rx, s.held[rx]) && BufferFits(s, s.buffers[h]);
    assert KindFits(s.held[rx], rx.kind) && KindFits(s.held[w], w.kind);
  }

  // ---------- every run ----------

  ghost predicate InOrder(s: State, all: set<Context>, allSlots: set<Slot>) {
    Inv(s) && Kinds(s.held) && s.all == all && s.allSlots == allSlots
  }

  lemma StepInOrder(s: State, e: Event)
    requires InOrder(s, s.all, s.allSlots) && Passes(s, e)
    ensures InOrder(Apply(s, e), s.all, s.allSlots)
  {
    StepKeeps(s, e);
    KindsKeep(s, e);
    DepthsStay(s, e);
  }

  /** Every state of every run is in order, as long as no check has failed. */
  lemma {:induction false} RunsInOrder(ss: seq<State>, es: seq<Event>, all: set<Context>, allSlots: set<Slot>, k: nat)
    requires Run(ss, es, all, allSlots) && k <= |es| && forall i :: 0 <= i < k ==> Passes(ss[i], es[i])
    ensures InOrder(ss[k], all, allSlots)
  {
    if k == 0 {
      InitInv(all, allSlots);
    } else {
      RunsInOrder(ss, es, all, allSlots, k - 1);
      assert Follows(ss[k - 1], es[k - 1], ss[k - 1 + 1]);
      StepInOrder(ss[k - 1], es[k - 1]);
    }
  }

  // ---------- no state is stuck half way ----------

  /** More receive contexts than the peer has write contexts, and something to reply with. */
  ghost predicate Deep(all: set<Context>) {
    forall c :: c in all ==>
      && |Of(all, WriteKind, c.node, c.peer)| < |Of(all, ReceiveKind, c.peer, c.node)|
      && Of(all, ReplyKind, c.node, c.peer) != {}
  }

  ghost predicate OnlySends(s: State) {
    forall e :: Can(s, e) ==> e.Send?
  }

  lemma Stays(s: State, e: Event)
    requires OnlySends(s) && !e.Send?
    ensures !Can(s, e)
  {
  }

  /** What would go on by itself is not there. */
  lemma NothingLanded(s: State, c: Context)
    requires OnlySends(s) && c in s.held
    ensures var x := s.held[c]; !x.GotReply? && !x.GotWrite? && !x.StartSent? && !x.ReplySent? && !x.WriteSent?
  {
    Stays(s, HandleReply(c));
    Stays(s, HandleWrite(c));
    Stays(s, Complete(c));
  }

  lemma NothingLands(s: State, c: Context, rx: Context)
    requires OnlySends(s) && c in s.held && FreeContext(s, rx, ReceiveKind, c.peer, c.node)
    ensures var x := s.held[c]; !x.Start? && !x.Reply? && !x.Write?
  {
    Stays(s, Land(c, rx));
    Stays(s, LandWrite(c, rx));
  }

  lemma NothingStarts(s: State, c: Context, r: Context)
    requires OnlySends(s) && c in s.held && FreeContext(s, r, ReplyKind, c.node, c.peer)
    ensures !s.held[c].GotStart?
  {
    var p := FreshPlace(s.mem, c.node);
    var idx := FreeIndex(s, c.node);
    var n := if s.held[c].GotStart? then s.held[c].metaLen + Sum(s.held[c].lens) else 0;
    Stays(s, HandleStart(c, r, p, idx, seq(n, _ => 0)));
  }

  /** Receive contexts are then held by STARTs alone, each with a write context of the peer, so one
      is left. */
  lemma ReceiveLeft(s: State, node: nat, peer: nat) returns (rx: Context)
    requires Inv(s) && Kinds(s.held) && OnlySends(s)
    requires |Of(s.all, WriteKind, peer, node)| < |Of(s.all, ReceiveKind, node, peer)|
    ensures FreeContext(s, rx, ReceiveKind, node, peer)
  {
    var rs := Of(s.all, ReceiveKind, node, peer);
    HeldReceives(s, rs - s.free, node, peer);
    if rs - s.free == rs {
      assert false;
    }
    rx :| rx in rs && rx !in rs - s.free;
  }

  lemma ReceiveParked(s: State, x: Context)
    requires Inv(s) && Kinds(s.held) && OnlySends(s) && x in s.held && x.kind.ReceiveKind?
    ensures Parked(s, x) && s.buffers[s.held[x].h].reserved in Of(s.all, WriteKind, x.peer, x.node)
  {
    NothingLanded(s, x);
    assert KindFits(s.held[x], x.kind);
    IsParked(s, x);
    ParkedPlace(s, x);
  }

  lemma HeldReceives(s: State, xs: set<Context>, node: nat, peer: nat)
    requires Inv(s) && Kinds(s.held) && OnlySends(s)
    requires forall x :: x in xs ==>
      x in s.all && x !in s.free && x.kind.ReceiveKind? && x.node == node && x.peer == peer
    ensures |xs| <= |Of(s.all, WriteKind, peer, node)|
  {
    forall x | x in xs ensures Parked(s, x) && s.buffers[s.held[x].h].reserved in Of(s.all, WriteKind, peer, node) {
      assert x in s.free + s.held.Keys;
      ReceiveParked(s, x);
    }
    var f := map x | x in xs :: s.buffers[s.held[x].h].reserved;
    Injects(xs, Of(s.all, WriteKind, peer, node), f);
  }

  /** So nothing is left that a landing or a completion could move on. */
  lemma NothingPosted(s: State, c: Context)
    requires Inv(s) && Kinds(s.held) && Deep(s.all) && OnlySends(s) && c in s.held
    ensures s.held[c].Reserved? || s.held[c].GotStart?
  {
    assert c in s.all;
    var rx := ReceiveLeft(s, c.peer, c.node);
    NothingLands(s, c, rx);
    NothingLanded(s, c);
  }

  lemma {:induction false} Above(addrs: set<int>) returns (a: int)
    ensures a >= 0 && forall x :: x in addrs ==> x < a
    decreases |addrs|
  {
    a := 0;
    if addrs != {} {
      var x := SomeElement(addrs);
      var b := Above(addrs - {x});
      a := if b <= x then x + 1 else b;
      forall y | y in addrs ensures y < a {
        assert y != x ==> y in addrs - {x};
      }
    }
  }

  lemma FreshPlace(mem: map<Place, seq<Byte>>, node: nat) returns (p: Place)
    ensures p !in mem && p.node == node
  {
    var addrs := set q | q in mem :: q.addr;
    var a := Above(addrs);
    p := Place(node, a);
    assert p in mem ==> p.addr in addrs;
  }

  lemma FreeIndex(s: State, node: nat) returns (idx: nat)
    ensures HasSlot(s, node) ==> Slot(node, idx) in s.freeSlots
  {
    idx := 0;
    if HasSlot(s, node) {
      var t :| t in s.freeSlots && t.node == node;
      idx := t.idx;
      assert t == Slot(node, idx);
    }
  }

  lemma ReplyLeft(s: State, r: Context)
    requires Inv(s) && Kinds(s.held) && Deep(s.all) && OnlySends(s) && r in s.all && r.kind.ReplyKind?
    ensures r in s.free
  {
    assert r in s.free + s.held.Keys;
    assert r in s.held ==> KindFits(s.held[r], r.kind);
    if r in s.held {
      NothingPosted(s, r);
      assert false;
    }
  }

  /** And no START waits, since nothing holds a reply context. */
  lemma NothingStarted(s: State, c: Context)
    requires Inv(s) && Kinds(s.held) && Deep(s.all) && OnlySends(s) && c in s.held
    ensures !s.held[c].GotStart?
  {
    assert c in s.all;
    var r := SomeElement(Of(s.all, ReplyKind, c.node, c.peer));
    ReplyLeft(s, r);
    NothingStarts(s, c, r);
  }

  lemma NothingReserved(s: State, c: Context)
    requires Inv(s) && Kinds(s.held) && Deep(s.all) && OnlySends(s) && c in s.held
    ensures !s.held[c].Reserved?
  {
    if s.held[c].Reserved? {
      var d := s.at[s.held[c].h];
      assert d in s.held && BeforeWrite(s.held[d]);
      NothingPosted(s, d);
      NothingStarted(s, d);
      assert false;
    }
  }

  lemma NothingHeld(s: State)
    requires Inv(s) && Kinds(s.held) && Deep(s.all) && OnlySends(s)
    ensures s.held == map[]
  {
    forall c ensures c !in s.held {
      if c in s.held {
        NothingPosted(s, c);
        NothingStarted(s, c);
        NothingReserved(s, c);
        assert false;
      }
    }
  }

  lemma NothingQueued(s: State)
    requires OnlySends(s)
    ensures s.queue == map[] && s.blocks == map[]
  {
    forall p ensures p !in s.queue && p !in s.blocks {
      Stays(s, Recv(p));
      Stays(s, Release(p));
    }
  }

  ghost predicate IsDelivered(s: State, i: nat) {
    exists k :: 0 <= k < |s.delivered| && s.delivered[k].id == i
  }

  /** Every message has been delivered, everything is free and no memory is allocated. */
  ghost predicate AtRest(s: State) {
    && s.free == s.all && s.freeSlots == s.allSlots && s.mem == map[] && s.buffers == map[]
    && forall i :: 0 <= i < |s.sent| ==> IsDelivered(s, i)
  }

  /** A state in which only a send is possible is at rest. */
  lemma NoDeadlock(s: State)
    requires Inv(s) && Kinds(s.held) && Deep(s.all) && OnlySends(s)
    ensures AtRest(s)
  {
    NothingHeld(s);
    NothingQueued(s);
    NothingLost(s);
    forall i | 0 <= i < |s.sent| ensures IsDelivered(s, i) {
      assert s.delivered[s.loc[i].k].id == i;
    }
  }

  /** A run that cannot go on without another send has delivered everything. */
  lemma RunsDeliver(ss: seq<State>, es: seq<Event>, all: set<Context>, allSlots: set<Slot>)
    requires Run(ss, es, all, allSlots) && Deep(all) && OnlySends(ss[|es|])
    requires forall i :: 0 <= i < |es| ==> Passes(ss[i], es[i])
    ensures AtRest(ss[|es|]) && ss[|es|].all == all && ss[|es|].allSlots == allSlots
  {
    RunsInOrder(ss, es, all, allSlots, |es|);
    NoDeadlock(ss[|es|]);
  }
}
