/**
 When a check of the rendezvous fails (src/ibverbs_van.h).

 If a node has fewer slots than there are write contexts towards it, there is a run, with every
 node handling what it has received in order, in which a START finds no index left in the address
 pool.  With the other direction this is exact.  A message with four segments does not fit into the
 scatter list of its WRITE.
 */
module RendezvousLimits {
  import opened Collections
  import opened Options
  import opened Rendezvous
  import opened RendezvousDepth
  import opened RendezvousOrder

  // ---------- runs, step by step ----------

  datatype Trace = Begin(all: set<Context>, slots: set<Slot>) | Then(before: Trace, e: Event, state: State)

  function Now(tr: Trace): State {
    match tr
    case Begin(all, slots) => Init(all, slots)
    case Then(_, _, s) => s
  }

  function States(tr: Trace): (ss: seq<State>)
    ensures |ss| == |Events(tr)| + 1 && ss[|Events(tr)|] == Now(tr)
  {
    match tr
    case Begin(_, _) => [Now(tr)]
    case Then(before, _, s) => States(before) + [s]
  }

  function Events(tr: Trace): seq<Event> {
    match tr
    case Begin(_, _) => []
    case Then(before, e, _) => Events(before) + [e]
  }

  function AllOf(tr: Trace): set<Context> {
    match tr
    case Begin(all, _) => all
    case Then(before, _, _) => AllOf(before)
  }

  function AllSlots(tr: Trace): set<Slot> {
    match tr
    case Begin(_, slots) => slots
    case Then(before, _, _) => AllSlots(before)
  }

  ghost function LogNow(tr: Trace): Log {
    LogAt(States(tr), Events(tr), |Events(tr)|)
  }

  /** Every check passes, and every node handles what it has received in order. */
  ghost predicate Good(tr: Trace) {
    match tr
    case Begin(_, _) => true
    case Then(before, e, t) =>
      Good(before) && InTurn(Now(before), LogNow(before), e) && Passes(Now(before), e) && t == Apply(Now(before), e)
  }

  /** The messages sent are Sendable and Slim. */
  ghost predicate Gentle(tr: Trace) {
    match tr
    case Begin(_, _) => true
    case Then(before, e, _) => Gentle(before) && (e.Send? ==> Sendable(e.m) && Slim(e.m))
  }

  lemma {:induction false} LogSame(ss: seq<State>, es: seq<Event>, ss': seq<State>, es': seq<Event>, k: nat)
    requires |ss| == |es| + 1 && |ss'| == |es'| + 1 && ss <= ss' && es <= es' && k <= |es|
    ensures LogAt(ss', es', k) == LogAt(ss, es, k)
  {
    if k > 0 {
      LogSame(ss, es, ss', es', k - 1);
    }
  }

  lemma Extend(ss: seq<State>, es: seq<Event>, e: Event, t: State, all: set<Context>, slots: set<Slot>)
    requires Run(ss, es, all, slots) && Polled(ss, es)
    requires InTurn(ss[|es|], LogAt(ss, es, |es|), e) && Follows(ss[|es|], e, t)
    ensures Run(ss + [t], es + [e], all, slots) && Polled(ss + [t], es + [e])
  {
    var ss', es' := ss + [t], es + [e];
    forall i | 0 <= i < |es'|
      ensures Follows(ss'[i], es'[i], ss'[i + 1]) && InTurn(ss'[i], LogAt(ss', es', i), es'[i]) {
      LogSame(ss, es, ss', es', i);
      if i < |es| {
        assert Follows(ss[i], es[i], ss[i + 1]) && InTurn(ss[i], LogAt(ss, es, i), es[i]);
      }
    }
  }

  lemma {:induction false} IsRun(tr: Trace)
    requires Good(tr)
    ensures Run(States(tr), Events(tr), AllOf(tr), AllSlots(tr)) && Polled(States(tr), Events(tr))
    ensures forall i :: 0 <= i < |Events(tr)| ==> Passes(States(tr)[i], Events(tr)[i])
    ensures Gentle(tr) ==> Tame(Events(tr))
  {
    if tr.Then? {
      IsRun(tr.before);
      Extend(States(tr.before), Events(tr.before), tr.e, tr.state, AllOf(tr), AllSlots(tr));
    }
  }

  lemma Reached(tr: Trace)
    requires Good(tr)
    ensures Ordered(Now(tr), LogNow(tr), |Events(tr)|) && Now(tr).all == AllOf(tr) && Now(tr).allSlots == AllSlots(tr)
    ensures Gentle(tr) ==> AllSlim(Now(tr).sent)
  {
    IsRun(tr);
    RunsOrdered(States(tr), Events(tr), AllOf(tr), AllSlots(tr), |Events(tr)|);
    if Gentle(tr) {
      RunsSlim(States(tr), Events(tr), AllOf(tr), AllSlots(tr), |Events(tr)|);
    }
  }

  /** Of what has been received anywhere, this is all there is. */
  ghost predicate Alone(held: map<Context, Carrier>, rx: Context) {
    && rx in held && Got(held[rx])
    && forall y :: y in held && Got(held[y]) ==> y == rx
  }

  /** What a step needs so that its checks pass. */
  ghost predicate Fits(s: State, e: Event) {
    && (e.Send? ==> Sendable(e.m)) && (e.HandleStart? ==> HasSlot(s, e.rx.node))
    && (e.HandleReply? ==> AllSlim(s.sent))
  }

  lemma FitsPasses(s: State, e: Event)
    requires Inv(s) && Can(s, e) && Fits(s, e)
    ensures Passes(s, e)
  {
    ChecksHold(s, e);
    if e.HandleReply? {
      ReplySlim(s, e.rx);
    }
  }

  lemma AloneInTurn(s: State, log: Log, k: nat, e: Event)
    requires Stamped(s.held, log, k) && (OutOf(e).Some? ==> Alone(s.held, OutOf(e).value))
    ensures InTurn(s, log, e)
  {
  }

  /** One more step of a run. */
  lemma Go(tr: Trace, e: Event) returns (tr': Trace)
    requires Good(tr) && Can(Now(tr), e) && Fits(Now(tr), e)
    requires OutOf(e).Some? ==> Alone(Now(tr).held, OutOf(e).value)
    ensures Passes(Now(tr), e) && tr' == Then(tr, e, Apply(Now(tr), e)) && Good(tr')
  {
    Reached(tr);
    FitsPasses(Now(tr), e);
    AloneInTurn(Now(tr), LogNow(tr), |Events(tr)|, e);
    tr' := Then(tr, e, Apply(Now(tr), e));
  }

  // ---------- one message goes as far as its WRITE ----------

  /** The contexts of a connection that a message needs beside its write context. */
  datatype Lane = Lane(start: Context, receive: Context, reply: Context, back: Context)

  ghost predicate IsLane(l: Lane, w: Context) {
    && w.kind.WriteKind? && l.start == Context(w.node, w.peer, StartKind, l.start.i)
    && l.receive == Context(w.peer, w.node, ReceiveKind, l.receive.i)
    && l.reply == Context(w.peer, w.node, ReplyKind, l.reply.i)
    && l.back == Context(w.node, w.peer, ReceiveKind, l.back.i)
  }

  /** What the steps of these runs are about. */
  datatype View = View(held: map<Context, Carrier>, free: set<Context>, freeSlots: set<Slot>, sent: seq<Message>)

  function ViewOf(tr: Trace): View {
    View(Now(tr).held, Now(tr).free, Now(tr).freeSlots, Now(tr).sent)
  }

  predicate Open(v: View, c: Context, kind: Kind, node: nat, peer: nat) {
    c in v.free && c.kind == kind && c.node == node && c.peer == peer
  }

  /** The same contexts and slots, and the same kind of messages. */
  ghost predicate Extends(tr: Trace, tr': Trace) {
    AllOf(tr') == AllOf(tr) && AllSlots(tr') == AllSlots(tr) && (Gentle(tr) ==> Gentle(tr'))
  }

  lemma GoSend(tr: Trace, m: Message, h: Handle, b: Place, w: Context, c: Context) returns (tr': Trace)
    requires Good(tr) && Can(Now(tr), Send(m, h, b, w, c)) && Sendable(m)
    ensures Good(tr') && (Slim(m) ==> Extends(tr, tr')) && AllOf(tr') == AllOf(tr) && AllSlots(tr') == AllSlots(tr)
    ensures var v := ViewOf(tr);
      ViewOf(tr') == View(v.held[w := Reserved(h)][c := Start(h, |m.meta|, Lens(m.data))], v.free - {w, c}, v.freeSlots,
                          v.sent + [m])
  {
    tr' := Go(tr, Send(m, h, b, w, c));
  }

  function Posted(x: Carrier): Carrier {
    if x.Start? then StartSent else ReplySent
  }

  function Received(x: Carrier): Carrier
    requires x.Start? || x.Reply?
  {
    if x.Start? then GotStart(x.h, x.metaLen, x.lens) else GotReply(x.h, x.place, x.idx)
  }

  lemma GoLand(tr: Trace, c: Context, rx: Context) returns (tr': Trace)
    requires Good(tr)
    requires var v := ViewOf(tr);
      c in v.held && (v.held[c].Start? || v.held[c].Reply?) && Open(v, rx, ReceiveKind, c.peer, c.node)
    ensures Good(tr') && Extends(tr, tr')
    ensures var v := ViewOf(tr);
      ViewOf(tr') == v.(held := v.held[c := Posted(v.held[c])][rx := Received(v.held[c])], free := v.free - {rx})
  {
    tr' := Go(tr, Land(c, rx));
  }

  lemma GoComplete(tr: Trace, c: Context) returns (tr': Trace)
    requires Good(tr) && c in ViewOf(tr).held && (ViewOf(tr).held[c].StartSent? || ViewOf(tr).held[c].ReplySent?)
    ensures Good(tr') && Extends(tr, tr')
    ensures var v := ViewOf(tr); ViewOf(tr') == v.(held := v.held - {c}, free := v.free + {c})
  {
    tr' := Go(tr, Complete(c));
  }

  lemma GoStart(tr: Trace, rx: Context, r: Context, p: Place, idx: nat) returns (tr': Trace)
    requires Good(tr) && p !in Now(tr).mem && p.node == rx.node
    requires var v := ViewOf(tr);
      && Alone(v.held, rx) && v.held[rx].GotStart? && Open(v, r, ReplyKind, rx.node, rx.peer)
      && Slot(rx.node, idx) in v.freeSlots
    ensures Good(tr') && Extends(tr, tr')
    ensures var v := ViewOf(tr);
      ViewOf(tr') == View((v.held - {rx})[r := Reply(v.held[rx].h, p, idx)], v.free - {r} + {rx},
                          v.freeSlots - {Slot(rx.node, idx)}, v.sent)
  {
    var got := Now(tr).held[rx];
    tr' := Go(tr, HandleStart(rx, r, p, idx, seq(got.metaLen + Sum(got.lens), _ => 0)));
  }

  lemma ReservedBy(s: State, w: Context, h: Handle)
    requires Inv(s) && w in s.held && s.held[w] == Reserved(h)
    ensures h in s.buffers && s.buffers[h].reserved == w
  {
  }

  lemma GoReply(tr: Trace, rx: Context, w: Context) returns (tr': Trace)
    requires Good(tr) && Gentle(tr)
    requires var v := ViewOf(tr);
      Alone(v.held, rx) && v.held[rx].GotReply? && w in v.held && v.held[w] == Reserved(v.held[rx].h)
    ensures Good(tr') && Extends(tr, tr')
    ensures var v := ViewOf(tr); var got := v.held[rx];
      ViewOf(tr') == v.(held := (v.held - {rx})[w := Write(got.h, got.place, got.idx)], free := v.free + {rx})
  {
    Reached(tr);
    ReservedBy(Now(tr), w, Now(tr).held[rx].h);
    tr' := Go(tr, HandleReply(rx));
  }

  /** The START of a message has come, and waits at rx. */
  ghost function Came(v: View, w: Context, rx: Context, h: Handle, m: Message): View {
    View(v.held[w := Reserved(h)][rx := GotStart(h, |m.meta|, Lens(m.data))], v.free - {w, rx}, v.freeSlots,
         v.sent + [m])
  }

  lemma CameBack(v: View, w: Context, c: Context, rx: Context, h: Handle, m: Message)
    requires v.free !! v.held.Keys && w in v.free && c in v.free && rx in v.free && w != c && c != rx && w != rx
    ensures var x := Start(h, |m.meta|, Lens(m.data));
      View(v.held[w := Reserved(h)][c := x][c := Posted(x)][rx := Received(x)] - {c}, v.free - {w, c} - {rx} + {c},
           v.freeSlots, v.sent + [m])
        == Came(v, w, rx, h, m)
  {
    var x := Start(h, |m.meta|, Lens(m.data));
    assert v.held[w := Reserved(h)][c := x][c := Posted(x)][rx := Received(x)] - {c} ==
      v.held[w := Reserved(h)][rx := Received(x)];
  }

  lemma NoneBoth(tr: Trace)
    requires Good(tr)
    ensures var v := ViewOf(tr); v.free !! v.held.Keys && v.free + v.held.Keys == AllOf(tr)
  {
    Reached(tr);
  }

  /** Send, let the START land, and take back its context. */
  lemma Bring(tr: Trace, m: Message, h: Handle, b: Place, w: Context, l: Lane) returns (tr': Trace)
    requires Good(tr) && Sendable(m) && IsLane(l, w) && Can(Now(tr), Send(m, h, b, w, l.start))
    requires l.receive in Now(tr).free
    ensures Good(tr') && (Slim(m) ==> Extends(tr, tr')) && AllOf(tr') == AllOf(tr) && AllSlots(tr') == AllSlots(tr)
    ensures ViewOf(tr') == Came(ViewOf(tr), w, l.receive, h, m)
  {
    NoneBoth(tr);
    tr' := GoSend(tr, m, h, b, w, l.start);
    tr' := GoLand(tr', l.start, l.receive);
    tr' := GoComplete(tr', l.start);
    CameBack(ViewOf(tr), w, l.start, l.receive, h, m);
  }

  /** It has been answered, and the REPLY waits at rx'. */
  ghost function Answered(v: View, rx: Context, rx': Context, p: Place, idx: nat): View
    requires rx in v.held && v.held[rx].GotStart?
  {
    View((v.held - {rx})[rx' := GotReply(v.held[rx].h, p, idx)], v.free + {rx} - {rx'},
         v.freeSlots - {Slot(rx.node, idx)}, v.sent)
  }

  lemma AnsweredBack(v: View, rx: Context, r: Context, rx': Context, p: Place, idx: nat)
    requires rx in v.held && v.held[rx].GotStart? && v.free !! v.held.Keys && r in v.free && rx' in v.free + {rx}
    requires r != rx'
    ensures var x := Reply(v.held[rx].h, p, idx);
      View((v.held - {rx})[r := x][r := Posted(x)][rx' := Received(x)] - {r}, v.free - {r} + {rx} - {rx'} + {r},
           v.freeSlots - {Slot(rx.node, idx)}, v.sent) == Answered(v, rx, rx', p, idx)
  {
    var x := Reply(v.held[rx].h, p, idx);
    assert (v.held - {rx})[r := x][r := Posted(x)][rx' := Received(x)] - {r} == (v.held - {rx})[rx' := Received(x)];
    assert v.free - {r} + {rx} - {rx'} + {r} == v.free + {rx} - {rx'};
  }

  /** Handle the START, let the REPLY land, and take back its context. */
  lemma Answer(tr: Trace, w: Context, l: Lane, p: Place, idx: nat) returns (tr': Trace)
    requires Good(tr) && IsLane(l, w) && p !in Now(tr).mem && p.node == w.peer
    requires var v := ViewOf(tr);
      && Alone(v.held, l.receive) && v.held[l.receive].GotStart? && Slot(w.peer, idx) in v.freeSlots
      && l.reply in v.free && l.back in v.free + {l.receive}
    ensures Good(tr') && Extends(tr, tr') && ViewOf(tr') == Answered(ViewOf(tr), l.receive, l.back, p, idx)
  {
    NoneBoth(tr);
    tr' := GoStart(tr, l.receive, l.reply, p, idx);
    tr' := GoLand(tr', l.reply, l.back);
    tr' := GoComplete(tr', l.reply);
    AnsweredBack(ViewOf(tr), l.receive, l.reply, l.back, p, idx);
  }

  // ---------- the slots fill up ----------

  /** Every WRITE that has been posted is still to land, and nothing else is going on. */
  ghost predicate Quiet(held: map<Context, Carrier>) {
    forall c :: c in held ==> held[c].Write?
  }

  function Note(w: Context): Message {
    Message(w.node, w.peer, [0], [], false)
  }

  lemma NoteFits(w: Context)
    ensures Sendable(Note(w)) && Slim(Note(w))
  {
    assert Gathered([]) == [];
  }

  lemma FreshHandle(buffers: map<Handle, MessageBuffer>, node: nat) returns (h: Handle)
    ensures h !in buffers && h.node == node
  {
    var ns := set g | g in buffers :: g.n;
    var n := Above(ns);
    h := Handle(node, n);
    assert h in buffers ==> h.n in ns;
  }

  /** A message has been sent and has come, where all was quiet. */
  lemma Notify(tr: Trace, m: Message, w: Context, l: Lane) returns (tr': Trace, h: Handle)
    requires Good(tr) && Sendable(m) && m.from == w.node && m.to == w.peer && IsLane(l, w)
    requires w in Now(tr).free && l.start in Now(tr).free && l.receive in Now(tr).free
    ensures Good(tr') && (Slim(m) ==> Extends(tr, tr')) && AllOf(tr') == AllOf(tr) && AllSlots(tr') == AllSlots(tr)
    ensures ViewOf(tr') == Came(ViewOf(tr), w, l.receive, h, m)
  {
    h := FreshHandle(Now(tr).buffers, w.node);
    var b := FreshPlace(Now(tr).mem, w.node);
    tr' := Bring(tr, m, h, b, w, l);
  }

  lemma QuietCame(v: View, w: Context, rx: Context, h: Handle, m: Message)
    requires Quiet(v.held) && rx != w
    ensures Alone(Came(v, w, rx, h, m).held, rx)
  {
  }

  lemma QuietAnswered(v: View, w: Context, rx: Context, rx': Context, h: Handle, m: Message, p: Place, idx: nat)
    requires Quiet(v.held) && rx != w && rx' != w
    ensures Alone(Answered(Came(v, w, rx, h, m), rx, rx', p, idx).held, rx')
  {
  }

  lemma WrittenBack(v: View, w: Context, rx: Context, rx': Context, h: Handle, m: Message, p: Place, idx: nat)
    requires v.free !! v.held.Keys && w in v.free && rx in v.free && rx' in v.free && rx != w && rx' != w
    ensures var u := Answered(Came(v, w, rx, h, m), rx, rx', p, idx);
      && (u.held - {rx'})[w := Write(h, p, idx)] == v.held[w := Write(h, p, idx)]
      && u.free + {rx'} == v.free - {w} && u.freeSlots == v.freeSlots - {Slot(rx.node, idx)}
  {
    var u := Answered(Came(v, w, rx, h, m), rx, rx', p, idx);
    assert (u.held - {rx'})[w := Write(h, p, idx)] == v.held[w := Write(h, p, idx)];
    assert u.free + {rx'} == v.free - {w};
  }

  ghost predicate LaneFree(free: set<Context>, w: Context, l: Lane) {
    w in free && l.start in free && l.receive in free && l.reply in free && l.back in free
  }

  /** A message takes a slot, and the REPLY comes back. */
  lemma Settle(tr: Trace, m: Message, w: Context, l: Lane, idx: nat) returns (tr': Trace, h: Handle, p: Place)
    requires Good(tr) && Quiet(ViewOf(tr).held) && IsLane(l, w) && Sendable(m) && m.from == w.node && m.to == w.peer
    requires LaneFree(ViewOf(tr).free, w, l) && Slot(w.peer, idx) in ViewOf(tr).freeSlots
    ensures Good(tr') && (Slim(m) ==> Extends(tr, tr')) && AllOf(tr') == AllOf(tr) && AllSlots(tr') == AllSlots(tr)
    ensures ViewOf(tr') == Answered(Came(ViewOf(tr), w, l.receive, h, m), l.receive, l.back, p, idx)
    ensures Alone(ViewOf(tr').held, l.back)
  {
    tr', h := Notify(tr, m, w, l);
    QuietCame(ViewOf(tr), w, l.receive, h, m);
    p := FreshPlace(Now(tr').mem, w.peer);
    tr' := Answer(tr', w, l, p, idx);
    QuietAnswered(ViewOf(tr), w, l.receive, l.back, h, m, p, idx);
  }

  /** Its WRITE is posted. */
  lemma Round(tr: Trace, w: Context, l: Lane, idx: nat) returns (tr': Trace)
    requires Good(tr) && Gentle(tr) && Quiet(ViewOf(tr).held) && IsLane(l, w)
    requires LaneFree(ViewOf(tr).free, w, l) && Slot(w.peer, idx) in ViewOf(tr).freeSlots
    ensures Good(tr') && Extends(tr, tr') && Quiet(ViewOf(tr').held)
    ensures ViewOf(tr').free == ViewOf(tr).free - {w}
    ensures ViewOf(tr').freeSlots == ViewOf(tr).freeSlots - {Slot(w.peer, idx)}
  {
    NoneBoth(tr);
    NoteFits(w);
    var tr1, h, p := Settle(tr, Note(w), w, l, idx);
    WrittenBack(ViewOf(tr), w, l.receive, l.back, h, Note(w), p, idx);
    tr' := GoReply(tr1, l.back, w);
  }

  /** Every connection that has a write context has one of every other kind too. */
  ghost predicate Linked(all: set<Context>) {
    forall c :: c in all && c.kind.WriteKind? ==>
      && Of(all, StartKind, c.node, c.peer) != {} && Of(all, ReceiveKind, c.peer, c.node) != {}
      && Of(all, ReplyKind, c.peer, c.node) != {} && Of(all, ReceiveKind, c.node, c.peer) != {}
  }

  lemma SomeLane(all: set<Context>, w: Context) returns (l: Lane)
    requires Linked(all) && w in all && w.kind.WriteKind?
    ensures IsLane(l, w) && l.start in all && l.receive in all && l.reply in all && l.back in all
  {
    var c := SomeElement(Of(all, StartKind, w.node, w.peer));
    var x := SomeElement(Of(all, ReceiveKind, w.peer, w.node));
    var r := SomeElement(Of(all, ReplyKind, w.peer, w.node));
    var b := SomeElement(Of(all, ReceiveKind, w.node, w.peer));
    l := Lane(c, x, r, b);
  }

  /** The write contexts used have taken as many slots of the node; nothing else is in use. */
  ghost predicate Filled(tr: Trace, all: set<Context>, slots: set<Slot>, node: nat, used: set<Context>) {
    && Good(tr) && Gentle(tr) && AllOf(tr) == all && AllSlots(tr) == slots && Quiet(ViewOf(tr).held)
    && used <= WritesTowards(all, node) && ViewOf(tr).free == all - used
    && |SlotsAt(ViewOf(tr).freeSlots, node)| + |used| == |SlotsAt(slots, node)|
  }

  lemma LaneLeft(tr: Trace, all: set<Context>, slots: set<Slot>, node: nat, used: set<Context>)
      returns (w: Context, l: Lane)
    requires Filled(tr, all, slots, node, used) && Linked(all) && |used| < |WritesTowards(all, node)|
    ensures w in WritesTowards(all, node) - used && IsLane(l, w) && LaneFree(all - used, w, l)
  {
    w := SomeOther(WritesTowards(all, node), used);
    l := SomeLane(all, w);
  }

  lemma OneSlotLess(before: set<Slot>, after: set<Slot>, t: Slot)
    requires t in before && after == before - {t}
    ensures |SlotsAt(after, t.node)| + 1 == |SlotsAt(before, t.node)|
  {
    assert SlotsAt(after, t.node) == SlotsAt(before, t.node) - {t};
  }

  lemma FillOne(tr: Trace, all: set<Context>, slots: set<Slot>, node: nat, used: set<Context>)
      returns (tr': Trace, used': set<Context>)
    requires Filled(tr, all, slots, node, used) && Linked(all)
    requires |used| < |WritesTowards(all, node)| && |used| < |SlotsAt(slots, node)|
    ensures Filled(tr', all, slots, node, used') && |used'| == |used| + 1
  {
    var w, l := LaneLeft(tr, all, slots, node, used);
    var t := SomeElement(SlotsAt(ViewOf(tr).freeSlots, node));
    assert t == Slot(w.peer, t.idx);
    tr' := Round(tr, w, l, t.idx);
    used' := used + {w};
    assert all - used' == all - used - {w};
    OneSlotLess(ViewOf(tr).freeSlots, ViewOf(tr').freeSlots, t);
  }

  lemma {:induction false} FillUp(all: set<Context>, slots: set<Slot>, node: nat, k: nat)
      returns (tr: Trace, used: set<Context>)
    requires Linked(all) && k <= |WritesTowards(all, node)| && k <= |SlotsAt(slots, node)|
    ensures Filled(tr, all, slots, node, used) && |used| == k
  {
    if k == 0 {
      tr, used := Begin(all, slots), {};
    } else {
      tr, used := FillUp(all, slots, node, k - 1);
      tr, used := FillOne(tr, all, slots, node, used);
    }
  }

  // ---------- a check fails ----------

  /** A run in which every node handles what it has received in order, and every check passes but the last. */
  ghost predicate Breaks(ss: seq<State>, es: seq<Event>, all: set<Context>, slots: set<Slot>) {
    && Run(ss, es, all, slots) && Polled(ss, es) && es != []
    && var k := |es| - 1; (forall i :: 0 <= i < k ==> Passes(ss[i], es[i])) && !Passes(ss[k], es[k])
  }

  lemma LastFails(ss: seq<State>, es: seq<Event>, e: Event, t: State, all: set<Context>, slots: set<Slot>)
    requires Run(ss + [t], es + [e], all, slots) && Polled(ss + [t], es + [e]) && |ss| == |es| + 1
    requires (forall i :: 0 <= i < |es| ==> Passes(ss[i], es[i])) && !Passes(ss[|es|], e)
    ensures Breaks(ss + [t], es + [e], all, slots) && (Tame(es) && !e.Send? ==> Tame(es + [e]))
  {
  }

  lemma Fails(tr: Trace, e: Event) returns (ss: seq<State>, es: seq<Event>)
    requires Good(tr) && Can(Now(tr), e) && OutOf(e).Some? && Alone(Now(tr).held, OutOf(e).value) && !Passes(Now(tr), e)
    ensures Breaks(ss, es, AllOf(tr), AllSlots(tr)) && es[|es| - 1] == e && (Gentle(tr) ==> Tame(es))
  {
    ss, es := States(tr) + [Now(tr)], Events(tr) + [e];
    Reached(tr);
    IsRun(tr);
    AloneInTurn(Now(tr), LogNow(tr), |Events(tr)|, e);
    Extend(States(tr), Events(tr), e, Now(tr), AllOf(tr), AllSlots(tr));
    LastFails(States(tr), Events(tr), e, Now(tr), AllOf(tr), AllSlots(tr));
  }

  lemma NoSlotFails(tr: Trace, e: Event)
    requires Good(tr) && e.HandleStart? && Can(Now(tr), e) && !HasSlot(Now(tr), e.rx.node)
    ensures !Passes(Now(tr), e)
  {
    Reached(tr);
    ChecksHold(Now(tr), e);
  }

  /** If a node has fewer slots than there are write contexts towards it, a START can find none left. */
  lemma SlotsRunOut(all: set<Context>, slots: set<Slot>, node: nat) returns (ss: seq<State>, es: seq<Event>)
    requires Linked(all) && |SlotsAt(slots, node)| < |WritesTowards(all, node)|
    ensures Breaks(ss, es, all, slots) && Tame(es) && es[|es| - 1].HandleStart?
  {
    var tr, used := FillUp(all, slots, node, |SlotsAt(slots, node)|);
    var w, l := LaneLeft(tr, all, slots, node, used);
    NoteFits(w);
    var tr', h := Notify(tr, Note(w), w, l);
    QuietCame(ViewOf(tr), w, l.receive, h, Note(w));
    var p := FreshPlace(Now(tr').mem, node);
    var e := HandleStart(l.receive, l.reply, p, 0, [0]);
    assert Lens([]) == [] && Sum([]) == 0;
    assert forall t :: t in ViewOf(tr').freeSlots && t.node == node ==> t in SlotsAt(ViewOf(tr').freeSlots, node);
    NoSlotFails(tr', e);
    ss, es := Fails(tr', e);
  }

  lemma ReplyFails(tr: Trace, rx: Context, m: Message)
    requires Good(tr) && Can(Now(tr), HandleReply(rx)) && Now(tr).sent == [m] && !Slim(m)
    ensures !Passes(Now(tr), HandleReply(rx))
  {
    Reached(tr);
    ChecksHold(Now(tr), HandleReply(rx));
  }

  /** Whatever the contexts and slots, a message whose segments do not fit into the scatter list leads to
      a WRITE that cannot be posted. */
  lemma ScatterTooLong(all: set<Context>, slots: set<Slot>, w: Context, m: Message)
      returns (ss: seq<State>, es: seq<Event>)
    requires Linked(all) && w in all && w.kind.WriteKind? && SlotsAt(slots, w.peer) != {}
    requires m.from == w.node && m.to == w.peer && Sendable(m) && !Slim(m)
    ensures Breaks(ss, es, all, slots) && es[|es| - 1].HandleReply?
  {
    var l := SomeLane(all, w);
    var t := SomeElement(SlotsAt(slots, w.peer));
    assert t == Slot(w.peer, t.idx);
    var tr, h, p := Settle(Begin(all, slots), m, w, l, t.idx);
    ReplyFails(tr, l.back, m);
    ss, es := Fails(tr, HandleReply(l.back));
  }

  /** A message with four segments that are not empty is one, and SendMsg takes it. */
  lemma FourSegments(w: Context)
    ensures var m := Message(w.node, w.peer, [0], [[0], [0], [0], [0]], false); Sendable(m) && !Slim(m)
  {
    var z := [0];
    assert Gathered([z]) == [z] && Gathered([z, z]) == [z, z];
    assert [z, z, z][1..] == [z, z] && [z, z, z, z][1..] == [z, z, z];
  }

  // ---------- exactly when ----------

  /** No check fails in any run in which every node handles what it has received in order. */
  ghost predicate Safe(all: set<Context>, slots: set<Slot>) {
    forall ss, es :: Run(ss, es, all, slots) && Polled(ss, es) && Tame(es) ==>
      forall i :: 0 <= i < |es| ==> Passes(ss[i], es[i])
  }

  /** That is so exactly if every node has at least as many slots as there are write contexts towards it. */
  lemma SafeExactly(all: set<Context>, slots: set<Slot>)
    requires Linked(all)
    ensures Safe(all, slots) <==> Ample(all, slots)
  {
    if Ample(all, slots) {
      forall ss, es | Run(ss, es, all, slots) && Polled(ss, es) && Tame(es)
        ensures forall i :: 0 <= i < |es| ==> Passes(ss[i], es[i]) {
        RunsPassChecks(ss, es, all, slots);
      }
    } else {
      var node :| |SlotsAt(slots, node)| < |WritesTowards(all, node)|;
      var ss, es := SlotsRunOut(all, slots, node);
      assert !Passes(ss[|es| - 1], es[|es| - 1]);
    }
  }
}
