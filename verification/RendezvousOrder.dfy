/**
 The order of the completion queue, and how many slots the rendezvous needs (src/ibverbs_van.h).

 One thread of a node takes what the node has received in the order it came.  So when a START is
 handled, every WRITE that came before it has been handled too, and has given its slot back.  What
 can still fill a slot then are messages that held a write context when the START came: a node
 needs as many slots as there are write contexts towards it.
 */
module RendezvousOrder {
  import opened Collections
  import opened Options
  import opened Rendezvous
  import opened RendezvousDepth

  // ---------- when something came ----------

  predicate Got(x: Carrier) {
    x.GotStart? || x.GotReply? || x.GotWrite?
  }

  /** The receive context that an event fills, and the one that it empties. */
  function Into(e: Event): Option<Context> {
    match e
    case Land(_, rx) => Some(rx)
    case LandWrite(_, rx) => Some(rx)
    case _ => None
  }

  function OutOf(e: Event): Option<Context> {
    match e
    case HandleStart(rx, _, _, _, _) => Some(rx)
    case HandleReply(rx) => Some(rx)
    case HandleWrite(rx) => Some(rx)
    case _ => None
  }

  /** The messages with a write context towards a node that has not been written with yet. */
  ghost function Writers(s: State, node: nat): set<Context> {
    set c | c in s.held && c.peer == node && (s.held[c].Reserved? || s.held[c].Write?) && s.held[c].h in s.buffers
  }

  ghost function Claim(s: State, node: nat): set<nat> {
    set c | c in Writers(s, node) :: s.buffers[s.held[c].h].id
  }

  /** When each receive context was last filled, and which messages had a write context then. */
  datatype Log = Log(stamp: map<Context, nat>, claim: map<Context, set<nat>>)

  function Noted(log: Log, rx: Context, k: nat, claim: set<nat>): Log {
    Log(log.stamp[rx := k], log.claim[rx := claim])
  }

  ghost function Logged(log: Log, e: Event, t: State, k: nat): Log {
    if Into(e).None? then log else Noted(log, Into(e).value, k, Claim(t, Into(e).value.node))
  }

  ghost function LogAt(ss: seq<State>, es: seq<Event>, k: nat): Log
    requires |ss| == |es| + 1 && k <= |es|
  {
    if k == 0 then Log(map[], map[]) else Logged(LogAt(ss, es, k - 1), es[k - 1], ss[k], k - 1)
  }

  /** Nothing that the node has received came before. */
  ghost predicate Oldest(held: map<Context, Carrier>, log: Log, rx: Context) {
    forall y :: y in held && Got(held[y]) && y.node == rx.node ==>
      rx in log.stamp && y in log.stamp && log.stamp[rx] <= log.stamp[y]
  }

  ghost predicate InTurn(s: State, log: Log, e: Event) {
    OutOf(e).Some? ==> Oldest(s.held, log, OutOf(e).value)
  }

  /** A run in which every node handles what it has received in order. */
  ghost predicate Polled(ss: seq<State>, es: seq<Event>)
    requires |ss| == |es| + 1
  {
    forall k :: 0 <= k < |es| ==> InTurn(ss[k], LogAt(ss, es, k), es[k])
  }

  // ---------- what a START that waits has before it ----------

  /** Everything received has its time. */
  ghost predicate Stamped(held: map<Context, Carrier>, log: Log, k: nat) {
    forall c :: c in held && Got(held[c]) ==> c in log.stamp && c in log.claim && log.stamp[c] < k
  }

  /** A START at y that is not behind the one at rx. */
  ghost predicate NotBehind(held: map<Context, Carrier>, log: Log, y: Context, rx: Context) {
    && y in held && held[y].GotStart? && y.node == rx.node
    && y in log.stamp && rx in log.stamp && log.stamp[y] <= log.stamp[rx]
  }

  /** The WRITE for a slot came before the START at rx. */
  ghost predicate WrittenBefore(s: State, log: Log, t: Slot, rx: Context) {
    && t in s.spot && s.spot[t] in s.held && s.held[s.spot[t]].GotWrite?
    && s.spot[t] in log.stamp && rx in log.stamp && log.stamp[s.spot[t]] < log.stamp[rx]
  }

  ghost predicate StartsClaimed(s: State, log: Log, rx: Context) {
    rx in log.claim && forall y :: NotBehind(s.held, log, y, rx) ==>
      s.held[y].h in s.buffers && s.buffers[s.held[y].h].id in log.claim[rx]
  }

  ghost predicate SlotsClaimed(s: State, log: Log, rx: Context) {
    rx in log.claim && forall t :: t in s.table && t.node == rx.node && !WrittenBefore(s, log, t, rx) ==>
      s.table[t].id in log.claim[rx]
  }

  ghost predicate Claims(s: State, log: Log, rx: Context) {
    && StartsClaimed(s, log, rx) && SlotsClaimed(s, log, rx)
    && |log.claim[rx]| <= |WritesTowards(s.all, rx.node)|
  }

  ghost predicate AllClaim(s: State, log: Log) {
    forall rx :: rx in s.held && s.held[rx].GotStart? ==> Claims(s, log, rx)
  }

  // ---------- a START comes ----------

  ghost predicate Newest(held: map<Context, Carrier>, log: Log, rx: Context, k: nat) {
    forall y :: y in held && Got(held[y]) && y in log.stamp && log.stamp[y] == k ==> y == rx
  }

  lemma {:induction false} ValuesFewer<A, B>(f: map<A, B>)
    ensures |f.Values| <= |f.Keys|
    decreases |f.Keys|
  {
    if f.Keys != {} {
      var x := SomeElement(f.Keys);
      var g := f - {x};
      ValuesFewer(g);
      assert g.Keys == f.Keys - {x};
      forall v | v in f.Values ensures v in g.Values + {f[x]} {
        var y :| y in f.Keys && f[y] == v;
        assert y != x ==> y in g.Keys && g[y] == v;
      }
      SubsetSmaller(f.Values, g.Values + {f[x]});
    }
  }

  lemma WritersTowards(s: State, node: nat)
    requires Contexts(s) && Kinds(s.held)
    ensures Writers(s, node) <= WritesTowards(s.all, node)
  {
    forall c | c in Writers(s, node) ensures c in WritesTowards(s.all, node) {
      assert KindFits(s.held[c], c.kind) && c in s.all;
    }
  }

  lemma ClaimSmall(s: State, node: nat)
    requires Contexts(s) && Kinds(s.held)
    ensures |Claim(s, node)| <= |WritesTowards(s.all, node)|
  {
    var ws := Writers(s, node);
    var f := map c | c in ws :: s.buffers[s.held[c].h].id;
    ValuesFewer(f);
    assert f.Keys == ws && Claim(s, node) == f.Values;
    WritersTowards(s, node);
    SubsetSmaller(ws, WritesTowards(s.all, node));
  }

  lemma WriterClaims(s: State, node: nat, c: Context)
    requires c in Writers(s, node)
    ensures s.buffers[s.held[c].h].id in Claim(s, node)
  {
  }

  lemma StartClaims(s: State, y: Context)
    requires Parked(s, y) && CarriersFit(s) && BuffersFit(s)
    ensures s.buffers[s.held[y].h].id in Claim(s, y.node)
  {
    var h := s.held[y].h;
    assert CarrierFits(s, y, s.held[y]) && BufferFits(s, s.buffers[h]);
    WriterClaims(s, y.node, s.buffers[h].reserved);
  }

  /** A filled slot whose WRITE has not come yet. */
  lemma SlotClaims(s: State, t: Slot)
    requires Slots(s) && Handles(s.held, s.buffers, s.at) && Reservations(s.held, s.buffers, s.at)
    requires CarriersFit(s) && BuffersFit(s) && EntriesFit(s) && t in s.table && !s.held[s.spot[t]].GotWrite?
    ensures s.table[t].id in Claim(s, t.node)
  {
    var c := s.spot[t];
    assert SlotOf(c, s.held[c]) == Some(t) && CarrierFits(s, c, s.held[c]);
    var h := HandleOf(s.held[c]).value;
    assert h in s.buffers && s.at[h] == c && BufferFits(s, s.buffers[h]) && EntryFits(s, s.table[t], t.node);
    if s.held[c].Write? {
      WriterClaims(s, t.node, c);
    } else {
      var w := s.buffers[h].reserved;
      assert BeforeWrite(s.held[c]) && s.held[w] == Reserved(h);
      WriterClaims(s, t.node, w);
    }
  }

  /** At the time a START comes, the messages with a write context are all that matter. */
  lemma NewClaims(s: State, log: Log, rx: Context, k: nat)
    requires Inv(s) && Kinds(s.held) && rx in log.claim && log.claim[rx] == Claim(s, rx.node)
    requires rx in log.stamp && log.stamp[rx] == k && Stamped(s.held, log, k + 1)
    requires Newest(s.held, log, rx, k)
    requires rx in s.held && s.held[rx].GotStart?
    ensures Claims(s, log, rx)
  {
    ClaimSmall(s, rx.node);
    forall y | NotBehind(s.held, log, y, rx)
      ensures s.held[y].h in s.buffers && s.buffers[s.held[y].h].id in log.claim[rx] {
      IsParked(s, y);
      StartClaims(s, y);
    }
    forall t | t in s.table && t.node == rx.node && !WrittenBefore(s, log, t, rx)
      ensures s.table[t].id in log.claim[rx] {
      NewSlotClaims(s, log, rx, k, t);
    }
  }

  lemma NewSlotClaims(s: State, log: Log, rx: Context, k: nat, t: Slot)
    requires Inv(s) && t in s.table && t.node == rx.node && !WrittenBefore(s, log, t, rx)
    requires rx in log.stamp && log.stamp[rx] == k && Stamped(s.held, log, k + 1)
    requires Newest(s.held, log, rx, k)
    requires rx in s.held && s.held[rx].GotStart?
    ensures s.table[t].id in Claim(s, rx.node)
  {
    var c := s.spot[t];
    assert c in s.held;
    if !s.held[c].GotWrite? {
      SlotClaims(s, t);
    }
  }

  // ---------- what has been claimed stays so ----------

  ghost predicate LogStays(log: Log, log': Log, rx: Context) {
    && rx in log.stamp && rx in log'.stamp && rx in log.claim && rx in log'.claim
    && log'.stamp[rx] == log.stamp[rx] && log'.claim[rx] == log.claim[rx]
  }

  /** A START that is not behind rx after a step was not behind it before, with the same message. */
  ghost predicate StartStays(s: State, t: State, log: Log, log': Log, y: Context, rx: Context) {
    NotBehind(t.held, log', y, rx) ==>
      && NotBehind(s.held, log, y, rx) && t.held[y] == s.held[y]
      && (s.held[y].h in s.buffers ==> s.held[y].h in t.buffers && t.buffers[s.held[y].h] == s.buffers[s.held[y].h])
  }

  /** A slot that is filled after a step was filled before, and its WRITE has not gone out of sight;
      or it has been filled with what was claimed. */
  ghost predicate SlotStays(s: State, t: State, log: Log, log': Log, k: Slot, rx: Context) {
    k in t.table && k.node == rx.node ==>
      || (rx in log.claim && t.table[k].id in log.claim[rx])
      || (k in s.table && t.table[k] == s.table[k] && (WrittenBefore(s, log, k, rx) ==> WrittenBefore(t, log', k, rx)))
  }

  lemma ClaimsStay(s: State, t: State, log: Log, log': Log, rx: Context)
    requires Claims(s, log, rx) && t.all == s.all && LogStays(log, log', rx)
    requires forall y :: StartStays(s, t, log, log', y, rx)
    requires forall k :: SlotStays(s, t, log, log', k, rx)
    ensures Claims(t, log', rx)
  {
    forall y | NotBehind(t.held, log', y, rx)
      ensures t.held[y].h in t.buffers && t.buffers[t.held[y].h].id in log'.claim[rx] {
      assert StartStays(s, t, log, log', y, rx);
    }
    forall k | k in t.table && k.node == rx.node && !WrittenBefore(t, log', k, rx)
      ensures t.table[k].id in log'.claim[rx] {
      assert SlotStays(s, t, log, log', k, rx);
    }
  }

  /** A free context is not held. */
  lemma NotHeld(s: State, c: Context)
    requires Contexts(s) && c in s.free
    ensures c !in s.held
  {
  }

  lemma SendClaims(s: State, m: Message, h: Handle, b: Place, w: Context, c: Context, log: Log, rx: Context)
    requires Can(s, Send(m, h, b, w, c)) && Contexts(s) && Claims(s, log, rx) && LogStays(log, log, rx)
    ensures Claims(ApplySend(s, m, h, b, w, c), log, rx)
  {
    var t := ApplySend(s, m, h, b, w, c);
    NotHeld(s, w);
    NotHeld(s, c);
    forall y ensures StartStays(s, t, log, log, y, rx) {
    }
    forall k ensures SlotStays(s, t, log, log, k, rx) {
    }
    ClaimsStay(s, t, log, log, rx);
  }

  lemma LandClaims(s: State, c: Context, x: Context, log: Log, k: nat, claim: set<nat>, rx: Context)
    requires Can(s, Land(c, x)) && Contexts(s) && Slots(s) && Claims(s, log, rx) && LogStays(log, log, rx)
    requires k > log.stamp[rx] && rx != x
    ensures Claims(ApplyLand(s, c, x), Noted(log, x, k, claim), rx)
  {
    var t, log' := ApplyLand(s, c, x), Noted(log, x, k, claim);
    NotHeld(s, x);
    forall y ensures StartStays(s, t, log, log', y, rx) {
    }
    forall k ensures SlotStays(s, t, log, log', k, rx) {
    }
    ClaimsStay(s, t, log, log', rx);
  }

  lemma LandWriteClaims(s: State, c: Context, x: Context, log: Log, k: nat, claim: set<nat>, rx: Context)
    requires Passes(s, LandWrite(c, x)) && Contexts(s) && Slots(s) && Claims(s, log, rx) && LogStays(log, log, rx)
    requires k > log.stamp[rx] && rx != x
    ensures Claims(ApplyLandWrite(s, c, x), Noted(log, x, k, claim), rx)
  {
    var t, log' := ApplyLandWrite(s, c, x), Noted(log, x, k, claim);
    NotHeld(s, x);
    forall y ensures StartStays(s, t, log, log', y, rx) {
    }
    forall k ensures SlotStays(s, t, log, log', k, rx) {
    }
    ClaimsStay(s, t, log, log', rx);
  }

  /** What the oldest START fills a slot with has been claimed by every other. */
  lemma HandleStartClaims(s: State, x: Context, r: Context, p: Place, idx: nat, junk: seq<Byte>, log: Log, rx: Context)
    requires Passes(s, HandleStart(x, r, p, idx, junk)) && Contexts(s) && Slots(s) && Oldest(s.held, log, x)
    requires Claims(s, log, rx) && LogStays(log, log, rx) && rx in s.held && s.held[rx].GotStart?
    ensures Claims(ApplyHandleStart(s, x, r, p, idx, junk), log, rx)
  {
    var t := ApplyHandleStart(s, x, r, p, idx, junk);
    NotHeld(s, r);
    forall y ensures StartStays(s, t, log, log, y, rx) {
    }
    assert x.node == rx.node ==> NotBehind(s.held, log, x, rx);
    forall k ensures SlotStays(s, t, log, log, k, rx) {
    }
    ClaimsStay(s, t, log, log, rx);
  }

  lemma HandleReplyClaims(s: State, x: Context, log: Log, rx: Context)
    requires Passes(s, HandleReply(x)) && Slots(s) && Claims(s, log, rx) && LogStays(log, log, rx)
    ensures Claims(ApplyHandleReply(s, x), log, rx)
  {
    var t := ApplyHandleReply(s, x);
    forall y ensures StartStays(s, t, log, log, y, rx) {
    }
    forall k ensures SlotStays(s, t, log, log, k, rx) {
    }
    ClaimsStay(s, t, log, log, rx);
  }

  lemma HandleWriteClaims(s: State, x: Context, log: Log, rx: Context)
    requires Passes(s, HandleWrite(x)) && Slots(s) && Claims(s, log, rx) && LogStays(log, log, rx)
    ensures Claims(ApplyHandleWrite(s, x), log, rx)
  {
    var t := ApplyHandleWrite(s, x);
    forall y ensures StartStays(s, t, log, log, y, rx) {
    }
    forall k ensures SlotStays(s, t, log, log, k, rx) {
    }
    ClaimsStay(s, t, log, log, rx);
  }

  lemma CompleteClaims(s: State, c: Context, log: Log, rx: Context)
    requires Passes(s, Complete(c)) && Handles(s.held, s.buffers, s.at) && Claims(s, log, rx) && LogStays(log, log, rx)
    ensures Claims(ApplyComplete(s, c), log, rx)
  {
    var t := ApplyComplete(s, c);
    forall y ensures StartStays(s, t, log, log, y, rx) {
      if NotBehind(t.held, log, y, rx) {
        assert HandleOf(s.held[y]) == Some(s.held[y].h);
      }
    }
    forall k ensures SlotStays(s, t, log, log, k, rx) {
    }
    ClaimsStay(s, t, log, log, rx);
  }

  lemma OthersClaims(s: State, t: State, log: Log, rx: Context)
    requires t.all == s.all && t.held == s.held && t.buffers == s.buffers && t.table == s.table && t.spot == s.spot
    requires Claims(s, log, rx) && LogStays(log, log, rx)
    ensures Claims(t, log, rx)
  {
    forall y ensures StartStays(s, t, log, log, y, rx) {
    }
    forall k ensures SlotStays(s, t, log, log, k, rx) {
    }
    ClaimsStay(s, t, log, log, rx);
  }

  // ---------- every step of a run that is polled ----------

  /** A step leaves the STARTs that it does not handle, and lets at most one more come. */
  lemma StartsCome(s: State, e: Event, rx: Context)
    requires Passes(s, e) && Contexts(s) && rx in Apply(s, e).held && Apply(s, e).held[rx].GotStart?
    requires Into(e) != Some(rx)
    ensures rx in s.held && s.held[rx].GotStart?
  {
  }

  lemma StartNotTaken(s: State, e: Event, rx: Context)
    requires Passes(s, e) && Contexts(s) && rx in s.held
    ensures Into(e) != Some(rx)
  {
  }

  lemma OldClaims(s: State, e: Event, log: Log, k: nat, rx: Context)
    requires Passes(s, e) && Contexts(s) && Slots(s) && Handles(s.held, s.buffers, s.at) && InTurn(s, log, e)
    requires rx in s.held && s.held[rx].GotStart? && Claims(s, log, rx) && rx in log.stamp && log.stamp[rx] < k
    ensures Claims(Apply(s, e), Logged(log, e, Apply(s, e), k), rx)
  {
    StartNotTaken(s, e, rx);
    match e
    case Send(m, h, b, w, c) => SendClaims(s, m, h, b, w, c, log, rx);
    case Land(c, x) => LandClaims(s, c, x, log, k, Claim(Apply(s, e), x.node), rx);
    case HandleStart(x, r, p, idx, junk) => HandleStartClaims(s, x, r, p, idx, junk, log, rx);
    case HandleReply(x) => HandleReplyClaims(s, x, log, rx);
    case LandWrite(c, x) => LandWriteClaims(s, c, x, log, k, Claim(Apply(s, e), x.node), rx);
    case HandleWrite(x) => HandleWriteClaims(s, x, log, rx);
    case Complete(c) => CompleteClaims(s, c, log, rx);
    case Recv(p) => OthersClaims(s, Apply(s, e), log, rx);
    case Release(p) => OthersClaims(s, Apply(s, e), log, rx);
  }

  /** What a node has received after a step it had before, or it has just come. */
  lemma GotBefore(s: State, e: Event, c: Context)
    requires Passes(s, e) && Contexts(s) && c in Apply(s, e).held && Got(Apply(s, e).held[c]) && Into(e) != Some(c)
    ensures c in s.held && Got(s.held[c])
  {
  }

  lemma StampedKeep(s: State, e: Event, log: Log, k: nat)
    requires Passes(s, e) && Contexts(s) && Stamped(s.held, log, k)
    ensures Stamped(Apply(s, e).held, Logged(log, e, Apply(s, e), k), k + 1)
  {
    var t, log' := Apply(s, e), Logged(log, e, Apply(s, e), k);
    forall c | c in t.held && Got(t.held[c]) ensures c in log'.stamp && c in log'.claim && log'.stamp[c] < k + 1 {
      if Into(e) != Some(c) {
        GotBefore(s, e, c);
      }
    }
  }

  lemma LandedNewest(s: State, e: Event, log: Log, k: nat, rx: Context)
    requires Passes(s, e) && Contexts(s) && Stamped(s.held, log, k) && Into(e) == Some(rx)
    ensures Newest(Apply(s, e).held, Logged(log, e, Apply(s, e), k), rx, k)
  {
    var t, log' := Apply(s, e), Logged(log, e, Apply(s, e), k);
    forall y | y in t.held && Got(t.held[y]) && y in log'.stamp && log'.stamp[y] == k ensures y == rx {
      if y != rx {
        GotBefore(s, e, y);
      }
    }
  }

  ghost predicate Ordered(s: State, log: Log, k: nat) {
    Inv(s) && Kinds(s.held) && Stamped(s.held, log, k) && AllClaim(s, log)
  }

  /** What comes claims, once the state after it is known to be in order. */
  lemma LandedClaims(s: State, e: Event, t: State, log: Log, log': Log, k: nat, rx: Context)
    requires Passes(s, e) && Contexts(s) && Stamped(s.held, log, k) && Into(e) == Some(rx)
    requires t == Apply(s, e) && log' == Logged(log, e, t, k) && Inv(t) && Kinds(t.held) && Stamped(t.held, log', k + 1)
    requires rx in t.held && t.held[rx].GotStart?
    ensures Claims(t, log', rx)
  {
    LandedNewest(s, e, log, k, rx);
    NewClaims(t, log', rx, k);
  }

  lemma StepClaims(s: State, e: Event, t: State, log: Log, log': Log, k: nat, rx: Context)
    requires Ordered(s, log, k) && Passes(s, e) && InTurn(s, log, e)
    requires t == Apply(s, e) && log' == Logged(log, e, t, k) && Inv(t) && Kinds(t.held) && Stamped(t.held, log', k + 1)
    requires rx in t.held && t.held[rx].GotStart?
    ensures Claims(t, log', rx)
  {
    if Into(e) == Some(rx) {
      LandedClaims(s, e, t, log, log', k, rx);
    } else {
      StartsCome(s, e, rx);
      OldClaims(s, e, log, k, rx);
    }
  }

  lemma StepOrdered(s: State, e: Event, log: Log, k: nat)
    requires Ordered(s, log, k) && Passes(s, e) && InTurn(s, log, e)
    ensures Ordered(Apply(s, e), Logged(log, e, Apply(s, e), k), k + 1)
  {
    var t, log' := Apply(s, e), Logged(log, e, Apply(s, e), k);
    StepInOrder(s, e);
    StampedKeep(s, e, log, k);
    forall rx | rx in t.held && t.held[rx].GotStart? ensures Claims(t, log', rx) {
      StepClaims(s, e, t, log, log', k, rx);
    }
  }

  // ---------- a slot is left ----------

  function FilledAt(s: State, node: nat): set<Slot> {
    set t | t in s.table && t.node == node
  }

  lemma NoneBefore(s: State, log: Log, rx: Context, t: Slot)
    requires Slots(s) && Oldest(s.held, log, rx) && t in s.table && t.node == rx.node
    ensures !WrittenBefore(s, log, t, rx)
  {
    assert SlotOf(s.spot[t], s.held[s.spot[t]]) == Some(t);
  }

  /** The filled slots of a node belong to messages that the oldest START claims, and not to its own. */
  lemma FilledClaimed(s: State, log: Log, rx: Context, t: Slot)
    requires Slots(s) && Locations(s) && CarriersFit(s) && Oldest(s.held, log, rx) && SlotsClaimed(s, log, rx)
    requires rx in s.held && s.held[rx].GotStart? && t in s.table && t.node == rx.node
    ensures s.held[rx].h in s.buffers && s.table[t].id in log.claim[rx] - {s.buffers[s.held[rx].h].id}
  {
    NoneBefore(s, log, rx, t);
    assert CarrierFits(s, rx, s.held[rx]);
  }

  lemma FewFilled(s: State, log: Log, rx: Context)
    requires Slots(s) && Locations(s) && CarriersFit(s) && Oldest(s.held, log, rx) && Claims(s, log, rx)
    requires rx in s.held && s.held[rx].GotStart?
    ensures |FilledAt(s, rx.node)| < |log.claim[rx]|
  {
    assert Got(s.held[rx]) && NotBehind(s.held, log, rx, rx);
    var own := s.buffers[s.held[rx].h].id;
    forall t | t in FilledAt(s, rx.node) ensures s.table[t].id in log.claim[rx] - {own} {
      FilledClaimed(s, log, rx, t);
    }
    Injects(FilledAt(s, rx.node), log.claim[rx] - {own}, map t | t in FilledAt(s, rx.node) :: s.table[t].id);
  }

  lemma SlotLeft(s: State, log: Log, rx: Context)
    requires Slots(s) && Locations(s) && CarriersFit(s) && Oldest(s.held, log, rx) && Claims(s, log, rx)
    requires rx in s.held && s.held[rx].GotStart? && |WritesTowards(s.all, rx.node)| <= |SlotsAt(s.allSlots, rx.node)|
    ensures HasSlot(s, rx.node)
  {
    FewFilled(s, log, rx);
    if !HasSlot(s, rx.node) {
      assert SlotsAt(s.allSlots, rx.node) <= FilledAt(s, rx.node);
      SubsetSmaller(SlotsAt(s.allSlots, rx.node), FilledAt(s, rx.node));
    }
  }

  // ---------- no check fails in any run that is polled ----------

  /** At least as many slots at a node as write contexts towards it. */
  ghost predicate Ample(all: set<Context>, slots: set<Slot>) {
    forall node :: |WritesTowards(all, node)| <= |SlotsAt(slots, node)|
  }

  ghost predicate AllSlim(sent: seq<Message>) {
    forall i :: 0 <= i < |sent| ==> Slim(sent[i])
  }

  /** Messages that SendMsg and the queue pair can take. */
  ghost predicate Tame(es: seq<Event>) {
    forall i :: 0 <= i < |es| && es[i].Send? ==> Sendable(es[i].m) && Slim(es[i].m)
  }

  lemma ReplySlim(s: State, rx: Context)
    requires Handles(s.held, s.buffers, s.at) && BuffersFit(s) && AllSlim(s.sent) && Can(s, HandleReply(rx))
    ensures Within(s, HandleReply(rx))
  {
    var h := s.held[rx].h;
    assert HandleOf(s.held[rx]) == Some(h) && BufferFits(s, s.buffers[h]);
  }

  lemma CheckPasses(s: State, e: Event, log: Log, k: nat)
    requires Ordered(s, log, k) && Ample(s.all, s.allSlots) && AllSlim(s.sent) && Can(s, e) && InTurn(s, log, e)
    requires e.Send? ==> Sendable(e.m)
    ensures Passes(s, e)
  {
    ChecksHold(s, e);
    match e
    case HandleStart(rx, _, _, _, _) => SlotLeft(s, log, rx);
    case HandleReply(rx) => ReplySlim(s, rx);
    case _ =>
  }

  lemma SentSlim(s: State, e: Event)
    requires AllSlim(s.sent) && Passes(s, e) && (e.Send? ==> Slim(e.m))
    ensures AllSlim(Apply(s, e).sent)
  {
  }

  lemma {:induction false} RunsOrdered(ss: seq<State>, es: seq<Event>, all: set<Context>, slots: set<Slot>, k: nat)
    requires Run(ss, es, all, slots) && Polled(ss, es) && k <= |es| && forall i :: 0 <= i < k ==> Passes(ss[i], es[i])
    ensures Ordered(ss[k], LogAt(ss, es, k), k) && InOrder(ss[k], all, slots)
  {
    RunsInOrder(ss, es, all, slots, k);
    if k > 0 {
      RunsOrdered(ss, es, all, slots, k - 1);
      assert Follows(ss[k - 1], es[k - 1], ss[k - 1 + 1]) && InTurn(ss[k - 1], LogAt(ss, es, k - 1), es[k - 1]);
      StepOrdered(ss[k - 1], es[k - 1], LogAt(ss, es, k - 1), k - 1);
    }
  }

  lemma {:induction false} RunsSlim(ss: seq<State>, es: seq<Event>, all: set<Context>, slots: set<Slot>, k: nat)
    requires Run(ss, es, all, slots) && Tame(es) && k <= |es| && forall i :: 0 <= i < k ==> Passes(ss[i], es[i])
    ensures AllSlim(ss[k].sent)
  {
    if k > 0 {
      RunsSlim(ss, es, all, slots, k - 1);
      assert Follows(ss[k - 1], es[k - 1], ss[k - 1 + 1]);
      SentSlim(ss[k - 1], es[k - 1]);
    }
  }

  lemma {:induction false} RunsPass(ss: seq<State>, es: seq<Event>, all: set<Context>, slots: set<Slot>, k: nat)
    requires Run(ss, es, all, slots) && Polled(ss, es) && Ample(all, slots) && Tame(es) && k <= |es|
    ensures forall i :: 0 <= i < k ==> Passes(ss[i], es[i])
  {
    if k > 0 {
      RunsPass(ss, es, all, slots, k - 1);
      RunsOrdered(ss, es, all, slots, k - 1);
      RunsSlim(ss, es, all, slots, k - 1);
      assert Follows(ss[k - 1], es[k - 1], ss[k - 1 + 1]) && InTurn(ss[k - 1], LogAt(ss, es, k - 1), es[k - 1]);
      CheckPasses(ss[k - 1], es[k - 1], LogAt(ss, es, k - 1), k - 1);
    }
  }

  /** With at least as many slots at each node as write contexts towards it, no check fails in any run in
      which every node handles what it has received in order. */
  lemma RunsPassChecks(ss: seq<State>, es: seq<Event>, all: set<Context>, slots: set<Slot>)
    requires Run(ss, es, all, slots) && Polled(ss, es) && Ample(all, slots) && Tame(es)
    ensures forall i :: 0 <= i < |es| ==> Passes(ss[i], es[i])
    ensures forall i :: 0 <= i < |ss| ==> Inv(ss[i])
  {
    RunsPass(ss, es, all, slots, |es|);
    forall i | 0 <= i < |ss| ensures Inv(ss[i]) {
      RunsInOrder(ss, es, all, slots, i);
    }
  }
}
