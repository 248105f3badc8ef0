/**
 Resenders on a network that loses, repeats and reorders: every message that was added is
 still buffered or was accepted, and none is processed twice.
 */
module ResenderNetwork {
  import opened Resender

  /** A message on the wire carries its sender; an acknowledgement goes back to it. */
  datatype Packet = DataPacket(m: Message) | AckPacket(to: int, from: int, key: nat)

  datatype Node = Node(buff: map<nat, Entry>, acked: set<nat>)

  /** A message handed to the application, at a node. */
  datatype Processed = Processed(node: int, m: Message)

  datatype Network = Network(
    timeout: int,
    /** The key of a message as it is on the wire. */
    key: Message -> nat,
    nodes: map<int, Node>,
    /** Everything ever put on the wire. */
    wire: set<Packet>,
    processed: seq<Processed>,
    /** Everything ever given to AddOutgoing, with the node that did. */
    added: set<(int, Message)>,
    clock: int,
    // where a key was processed
    at: map<(int, nat), nat>)

  datatype Event =
    | Transmit(me: int, m: Message)
    | AddOut(me: int, m: Message, now: int)
    | ArriveData(m: Message)
    | ArriveAck(to: int, from: int, key: nat)
    | Round(me: int, now: int)

  /** Two messages with one key, at one sender or at one receiver. */
  predicate Meet(key: Message -> nat, a: Message, b: Message) {
    key(a) == key(b) && (a.sender == b.sender || a.recver == b.recver)
  }

  /** No other message on the wire can be taken for it. */
  ghost predicate NoTwin(key: Message -> nat, wire: set<Packet>, m: Message) {
    forall p :: p in wire && p.DataPacket? && Meet(key, p.m, m) ==> p.m == m
  }

  ghost predicate Can(s: Network, e: Event) {
    match e
    case Transmit(me, m) =>
      me in s.nodes && (m.sender == EMPTY || m.sender == me) && me != EMPTY
    case AddOut(me, m, now) =>
      me in s.nodes && now >= s.clock && (m.sender == EMPTY || m.sender == me) && DataPacket(Resolved(m, me)) in s.wire
    case ArriveData(m) => DataPacket(m) in s.wire && m.recver in s.nodes
    case ArriveAck(to, from, key) => AckPacket(to, from, key) in s.wire && to in s.nodes
    case Round(me, now) => me in s.nodes && now >= s.clock
  }

  /** It puts no message on the wire that could be taken for another. */
  ghost predicate Clean(s: Network, e: Event) {
    e.Transmit? ==> NoTwin(s.key, s.wire, Resolved(e.m, e.me))
  }

  /** A message is transmitted before it is added, and again at each resend. */
  ghost function Apply(s: Network, e: Event): Network
    requires Can(s, e)
  {
    match e
    case Transmit(me, m) => s.(wire := s.wire + {DataPacket(Resolved(m, me))})
    case AddOut(me, m, now) =>
      var n := s.nodes[me];
      s.(nodes := s.nodes[me := n.(buff := Outgoing(n.buff, s.key(Resolved(m, me)), m, now))],
         added := s.added + {(me, m)}, clock := now)
    case ArriveData(m) => Accepted(s, m)
    case ArriveAck(to, from, key) =>
      var n := s.nodes[to];
      s.(nodes := s.nodes[to := n.(buff := n.buff - {key})])
    case Round(me, now) =>
      var n := s.nodes[me];
      s.(nodes := s.nodes[me := n.(buff := Bumped(n.buff, s.timeout, now))], clock := now)
  }

  ghost function Accepted(s: Network, m: Message): Network
    requires m.recver in s.nodes
  {
    var r, key := m.recver, s.key(m);
    var n := s.nodes[r];
    var dup := key in n.acked;
    s.(nodes := s.nodes[r := n.(acked := n.acked + {key})],
       wire := s.wire + {AckPacket(m.sender, r, key)},
       processed := if dup then s.processed else s.processed + [Processed(r, m)],
       at := if dup then s.at else s.at[(r, key) := |s.processed|])
  }

  // ---------- what holds in every reachable state ----------

  ghost predicate WireFits(s: Network) {
    forall p, q :: p in s.wire && q in s.wire && p.DataPacket? && q.DataPacket? && Meet(s.key, p.m, q.m) ==> p == q
  }

  /** An acknowledgement comes from who processed the message, and goes to who sent it. */
  ghost predicate AckFits(s: Network, p: Packet) {
    p.AckPacket? ==>
      && p.from in s.nodes && p.key in s.nodes[p.from].acked
      && (p.from, p.key) in s.at && s.at[(p.from, p.key)] < |s.processed|
      && s.processed[s.at[(p.from, p.key)]].m.sender == p.to
  }

  /** Who acknowledged a key processed its message. */
  ghost predicate AckedFits(s: Network, r: int, k: nat) {
    (r, k) in s.at && s.at[(r, k)] < |s.processed| &&
    var d := s.processed[s.at[(r, k)]];
    d.node == r == d.m.recver && s.key(d.m) == k && DataPacket(d.m) in s.wire
  }

  /** And nobody processed a message without noting its key, at its one place, and acknowledging it. */
  ghost predicate ProcessedFits(s: Network, i: int)
    requires 0 <= i < |s.processed|
  {
    var d := s.processed[i];
    && d.node in s.nodes && s.key(d.m) in s.nodes[d.node].acked && DataPacket(d.m) in s.wire
    && (d.node, s.key(d.m)) in s.at && s.at[(d.node, s.key(d.m))] == i
    && AckPacket(d.m.sender, d.node, s.key(d.m)) in s.wire
  }

  /** What was resent has waited longer than all its retries together. */
  ghost predicate Waited(e: Entry, timeout: int, now: int) {
    e.numRetry > 0 ==> e.numRetry * timeout < now - e.send
  }

  ghost predicate EntryFits(s: Network, n: int, k: nat)
    requires n in s.nodes && k in s.nodes[n].buff
  {
    var e := s.nodes[n].buff[k];
    && s.key(Resolved(e.msg, n)) == k && (n, e.msg) in s.added
    && Waited(e, s.timeout, s.clock)
  }

  /** An added message is on the wire, and still buffered or already accepted. */
  ghost predicate AddedFits(s: Network, me: int, m: Message) {
    var key := s.key(Resolved(m, me));
    && me in s.nodes && Resolved(m, me).sender == me && DataPacket(Resolved(m, me)) in s.wire
    && (key in s.nodes[me].buff || (m.recver in s.nodes && key in s.nodes[m.recver].acked))
  }

  ghost predicate Acceptance(s: Network) {
    && WireFits(s)
    && (forall p :: p in s.wire ==> AckFits(s, p))
    && (forall r, k :: r in s.nodes && k in s.nodes[r].acked ==> AckedFits(s, r, k))
    && (forall x :: x in s.at ==> x.0 in s.nodes && x.1 in s.nodes[x.0].acked)
    && (forall i :: 0 <= i < |s.processed| ==> ProcessedFits(s, i))
  }

  ghost predicate Inv(s: Network) {
    && Acceptance(s)
    && (forall n, k :: n in s.nodes && k in s.nodes[n].buff ==> EntryFits(s, n, k))
    && (forall x :: x in s.added ==> AddedFits(s, x.0, x.1))
  }

  // ---------- every event keeps it ----------

  /** Nothing accepted is forgotten. */
  ghost predicate Grows(s: Network, t: Network) {
    && t.key == s.key && s.wire <= t.wire && s.processed <= t.processed
    && (forall r :: r in s.nodes ==> r in t.nodes && s.nodes[r].acked <= t.nodes[r].acked)
    && (forall x :: x in s.at ==> x in t.at && t.at[x] == s.at[x])
  }

  lemma AcceptanceStays(s: Network, t: Network)
    requires Grows(s, t)
    ensures forall p :: AckFits(s, p) ==> AckFits(t, p)
    ensures forall r, k :: AckedFits(s, r, k) ==> AckedFits(t, r, k)
    ensures forall i :: 0 <= i < |s.processed| && ProcessedFits(s, i) ==> ProcessedFits(t, i)
  {
  }

  /** An event that only touches what is buffered. */
  lemma AcceptanceUntouched(s: Network, t: Network)
    requires Acceptance(s) && Grows(s, t) && t.wire == s.wire && t.processed == s.processed && t.at == s.at
    requires t.nodes.Keys == s.nodes.Keys && forall r :: r in s.nodes ==> t.nodes[r].acked == s.nodes[r].acked
    ensures Acceptance(t)
  {
    AcceptanceStays(s, t);
    forall x | x in t.at ensures x.0 in t.nodes && x.1 in t.nodes[x.0].acked {
      var r := x.0;
      assert r in s.nodes && t.nodes[r].acked == s.nodes[r].acked;
    }
  }

  lemma TransmitKeeps(s: Network, me: int, m: Message)
    requires Inv(s) && Can(s, Transmit(me, m)) && Clean(s, Transmit(me, m))
    ensures Inv(Apply(s, Transmit(me, m)))
  {
    var t := Apply(s, Transmit(me, m));
    AcceptanceStays(s, t);
  }

  lemma WaitsOn(e: Entry, timeout: int, clock: int, now: int)
    requires Waited(e, timeout, clock) && clock <= now
    ensures Waited(e, timeout, now)
  {
  }

  lemma AddOutEntry(s: Network, me: int, m: Message, now: int, n: int, k: nat)
    requires Can(s, AddOut(me, m, now)) && n in s.nodes && (k in s.nodes[n].buff ==> EntryFits(s, n, k))
    requires k in Apply(s, AddOut(me, m, now)).nodes[n].buff
    ensures EntryFits(Apply(s, AddOut(me, m, now)), n, k)
  {
    if k in s.nodes[n].buff {
      WaitsOn(s.nodes[n].buff[k], s.timeout, s.clock, now);
    }
  }

  lemma AddOutKeeps(s: Network, me: int, m: Message, now: int)
    requires Inv(s) && Can(s, AddOut(me, m, now))
    ensures Inv(Apply(s, AddOut(me, m, now)))
  {
    var t := Apply(s, AddOut(me, m, now));
    AcceptanceUntouched(s, t);
    forall n, k | n in t.nodes && k in t.nodes[n].buff ensures EntryFits(t, n, k) {
      AddOutEntry(s, me, m, now, n, k);
    }
    forall x | x in t.added ensures AddedFits(t, x.0, x.1) {
      assert x in s.added ==> AddedFits(s, x.0, x.1);
    }
  }

  /** What was processed under the key of a message that arrives is that message. */
  lemma SameProcessed(s: Network, m: Message)
    requires WireFits(s) && DataPacket(m) in s.wire && AckedFits(s, m.recver, s.key(m))
    ensures s.processed[s.at[(m.recver, s.key(m))]].m == m
  {
    var d := s.processed[s.at[(m.recver, s.key(m))]];
    assert Meet(s.key, d.m, m) && DataPacket(d.m) == DataPacket(m);
  }

  lemma ArriveDataKeeps(s: Network, m: Message)
    requires Inv(s) && Can(s, ArriveData(m))
    ensures Inv(Apply(s, ArriveData(m)))
  {
    var t := Apply(s, ArriveData(m));
    if s.key(m) in s.nodes[m.recver].acked {
      assert AckedFits(s, m.recver, s.key(m));
      SameProcessed(s, m);
    }
    AcceptanceStays(s, t);
    forall n, k | n in t.nodes && k in t.nodes[n].buff ensures EntryFits(t, n, k) {
      assert EntryFits(s, n, k);
    }
  }

  /** An acknowledgement that comes to the sender of a message with its key is for that message. */
  lemma AckIsForIt(s: Network, me: int, m: Message, from: int)
    requires WireFits(s) && AckFits(s, AckPacket(me, from, s.key(m))) && AckedFits(s, from, s.key(m))
    requires DataPacket(m) in s.wire && m.sender == me
    ensures m.recver == from
  {
    var d := s.processed[s.at[(from, s.key(m))]];
    assert Meet(s.key, d.m, m) && DataPacket(d.m) == DataPacket(m);
  }

  lemma AckAdded(s: Network, to: int, from: int, key: nat, me: int, m: Message)
    requires Acceptance(s) && Can(s, ArriveAck(to, from, key)) && AddedFits(s, me, m)
    ensures AddedFits(Apply(s, ArriveAck(to, from, key)), me, m)
  {
    assert AckFits(s, AckPacket(to, from, key)) && AckedFits(s, from, key);
    if me == to && s.key(Resolved(m, me)) == key {
      AckIsForIt(s, to, Resolved(m, me), from);
    }
  }

  lemma ArriveAckKeeps(s: Network, to: int, from: int, key: nat)
    requires Inv(s) && Can(s, ArriveAck(to, from, key))
    ensures Inv(Apply(s, ArriveAck(to, from, key)))
  {
    var t := Apply(s, ArriveAck(to, from, key));
    AcceptanceUntouched(s, t);
    forall x | x in t.added ensures AddedFits(t, x.0, x.1) {
      AckAdded(s, to, from, key, x.0, x.1);
    }
    forall n, k | n in t.nodes && k in t.nodes[n].buff ensures EntryFits(t, n, k) {
      assert EntryFits(s, n, k);
    }
  }

  lemma RoundKeeps(s: Network, me: int, now: int)
    requires Inv(s) && Can(s, Round(me, now))
    ensures Inv(Apply(s, Round(me, now)))
  {
    var t := Apply(s, Round(me, now));
    AcceptanceUntouched(s, t);
    forall n, k | n in t.nodes && k in t.nodes[n].buff ensures EntryFits(t, n, k) {
      assert EntryFits(s, n, k);
      RoundEntry(s.nodes[n].buff[k], s.timeout, s.clock, now);
    }
  }

  /** A round may come later than the last, and may retry. */
  lemma RoundEntry(e: Entry, timeout: int, clock: int, now: int)
    requires Waited(e, timeout, clock) && clock <= now
    ensures Waited(if Due(e, timeout, now) then Retried(e) else e, timeout, now) && Waited(e, timeout, now)
  {
    if Due(e, timeout, now) {
      RetryBound(e, timeout, now);
    }
  }

  lemma InitInv(timeout: int, key: Message -> nat, ids: set<int>)
    ensures Inv(Init(timeout, key, ids))
  {
  }

  ghost function Init(timeout: int, key: Message -> nat, ids: set<int>): Network {
    Network(timeout, key, map n | n in ids :: Node(map[], {}), {}, [], {}, 0, map[])
  }

  lemma StepKeeps(s: Network, e: Event)
    requires Inv(s) && Can(s, e) && Clean(s, e)
    ensures Inv(Apply(s, e)) && Apply(s, e).key == s.key
  {
    match e
    case Transmit(me, m) => TransmitKeeps(s, me, m);
    case AddOut(me, m, now) => AddOutKeeps(s, me, m, now);
    case ArriveData(m) => ArriveDataKeeps(s, m);
    case ArriveAck(to, from, key) => ArriveAckKeeps(s, to, from, key);
    case Round(me, now) => RoundKeeps(s, me, now);
  }

  // ---------- every run, with the keys the code computes ----------

  ghost function KeyOf(m: Message): nat {
    GetKey(m, EMPTY)
  }

  /** The key does not depend on who computes it, sender before or receiver after the wire. */
  lemma KeyAnywhere(m: Message, me: int)
    requires me != EMPTY
    ensures GetKey(m, me) == KeyOf(Resolved(m, me)) && forall r :: GetKey(Resolved(m, me), r) == GetKey(m, me)
  {
  }

  /** With node ids below 256, application ids below 2^16 and timestamps below 2^30, messages meet exactly
      if they have the same ids, timestamp and request bit. */
  lemma InRangeMeet(a: Message, b: Message)
    requires InRange(a) && InRange(b)
    ensures Meet(KeyOf, a, b) <==> SameIdentity(a, b)
  {
    KeysDistinct(a, b, EMPTY, EMPTY);
  }

  /** A run: events the network allows, one after the other. */
  ghost predicate Run(ss: seq<Network>, es: seq<Event>, timeout: int, ids: set<int>) {
    && |ss| == |es| + 1 && ss[0] == Init(timeout, KeyOf, ids)
    && forall i :: 0 <= i < |es| ==> Follows(ss[i], es[i], ss[i + 1])
  }

  ghost predicate Follows(s: Network, e: Event, t: Network) {
    Can(s, e) && t == Apply(s, e)
  }

  lemma {:induction false} RunsAreSafe(ss: seq<Network>, es: seq<Event>, timeout: int, ids: set<int>, k: nat)
    requires Run(ss, es, timeout, ids) && k <= |es| && forall i :: 0 <= i < k ==> Clean(ss[i], es[i])
    ensures Inv(ss[k]) && ss[k].key == KeyOf
  {
    if k == 0 {
      InitInv(timeout, KeyOf, ids);
    } else {
      RunsAreSafe(ss, es, timeout, ids, k - 1);
      assert Follows(ss[k - 1], es[k - 1], ss[k]);
      StepKeeps(ss[k - 1], es[k - 1]);
    }
  }

  /** No message is processed twice. */
  lemma ProcessedOnce(s: Network, i: nat, j: nat)
    requires Inv(s) && i < j < |s.processed|
    ensures s.processed[i].m != s.processed[j].m
  {
    assert ProcessedFits(s, i) && ProcessedFits(s, j);
    var k := s.key(s.processed[i].m);
    assert AckedFits(s, s.processed[i].node, k) && AckedFits(s, s.processed[j].node, s.key(s.processed[j].m));
  }

  ghost predicate Buffered(s: Network, me: int, m: Message) {
    var k := s.key(Resolved(m, me));
    me in s.nodes && k in s.nodes[me].buff && Resolved(s.nodes[me].buff[k].msg, me) == Resolved(m, me)
  }

  ghost predicate IsProcessed(s: Network, me: int, m: Message) {
    exists i :: 0 <= i < |s.processed| && s.processed[i] == Processed(m.recver, Resolved(m, me))
  }

  /** What is buffered under the key of an added message is that message. */
  lemma EntryIsIt(s: Network, me: int, m: Message)
    requires Inv(s) && (me, m) in s.added && me in s.nodes && s.key(Resolved(m, me)) in s.nodes[me].buff
    ensures Buffered(s, me, m)
  {
    var k := s.key(Resolved(m, me));
    var e := s.nodes[me].buff[k];
    assert EntryFits(s, me, k) && AddedFits(s, me, m) && AddedFits(s, me, e.msg);
    assert Meet(s.key, Resolved(e.msg, me), Resolved(m, me));
    assert DataPacket(Resolved(e.msg, me)) == DataPacket(Resolved(m, me));
  }

  /** Every message added is still buffered at its sender, or has been processed by its receiver;
      in particular no other message can be taken for it and drop it. */
  lemma BufferedOrProcessed(s: Network, me: int, m: Message)
    requires Inv(s) && (me, m) in s.added
    ensures Buffered(s, me, m) || IsProcessed(s, me, m)
  {
    assert AddedFits(s, me, m);
    var r, k := m.recver, s.key(Resolved(m, me));
    if k in s.nodes[me].buff {
      EntryIsIt(s, me, m);
    } else {
      assert AckedFits(s, r, k);
      SameProcessed(s, Resolved(m, me));
      assert s.processed[s.at[(r, k)]] == Processed(r, Resolved(m, me));
    }
  }

  /** A message that arrives, for the first time or not, has been processed then. */
  lemma ArrivedIsProcessed(s: Network, me: int, m: Message)
    requires Inv(s) && Can(s, ArriveData(Resolved(m, me)))
    ensures IsProcessed(Apply(s, ArriveData(Resolved(m, me))), me, m)
  {
    var w := Resolved(m, me);
    var t := Apply(s, ArriveData(w));
    ArriveDataKeeps(s, w);
    assert AckedFits(t, w.recver, t.key(w));
    SameProcessed(t, w);
    assert t.processed[t.at[(w.recver, t.key(w))]] == Processed(m.recver, w);
  }

  lemma AddedOnWire(s: Network, me: int, m: Message)
    requires Inv(s) && (me, m) in s.added
    ensures DataPacket(Resolved(m, me)) in s.wire && Resolved(m, me).sender == me && me in s.nodes
  {
    assert AddedFits(s, me, m);
  }

  /** Wherever a run has got to, one arrival of a buffered message and one of its acknowledgement are all it takes:
      both are possible, then the message has been processed and is no longer buffered, and all else still is. */
  lemma OneRoundTripSettles(s: Network, me: int, m: Message) returns (t: Network, u: Network)
    requires Inv(s) && (me, m) in s.added && Buffered(s, me, m) && m.recver in s.nodes
    ensures var w := Resolved(m, me);
      && Can(s, ArriveData(w)) && t == Apply(s, ArriveData(w)) && IsProcessed(t, me, m)
      && var ack := ArriveAck(me, m.recver, s.key(w));
      && Can(t, ack) && u == Apply(t, ack) && IsProcessed(u, me, m) && !Buffered(u, me, m)
      && u.nodes.Keys == s.nodes.Keys && u.nodes[me].buff == s.nodes[me].buff - {s.key(w)}
      && forall n :: n in s.nodes && n != me ==> u.nodes[n].buff == s.nodes[n].buff
  {
    var w := Resolved(m, me);
    AddedOnWire(s, me, m);
    ArrivedIsProcessed(s, me, m);
    t := Apply(s, ArriveData(w));
    u := AckArrives(t, me, w.recver, s.key(w));
    assert u.processed == t.processed;
  }

  lemma AckArrives(t: Network, to: int, from: int, key: nat) returns (u: Network)
    requires AckPacket(to, from, key) in t.wire && to in t.nodes
    ensures Can(t, ArriveAck(to, from, key)) && u == Apply(t, ArriveAck(to, from, key))
    ensures u.processed == t.processed && u.key == t.key
    ensures u.nodes == t.nodes[to := Node(t.nodes[to].buff - {key}, t.nodes[to].acked)]
  {
    u := Apply(t, ArriveAck(to, from, key));
  }

  /** An entry that has been retried has waited longer than its retries together. */
  lemma RetriesWaited(s: Network, n: int, k: nat)
    requires Inv(s) && n in s.nodes && k in s.nodes[n].buff && s.nodes[n].buff[k].numRetry > 0
    ensures s.nodes[n].buff[k].numRetry * s.timeout < s.clock - s.nodes[n].buff[k].send
  {
    assert EntryFits(s, n, k);
  }

  // ---------- rounds of a monitor ----------

  /** How many of the first k events are rounds of a node at a time after t. */
  function RoundsAfter(es: seq<Event>, k: nat, me: int, t: int): nat
    requires k <= |es|
  {
    if k == 0 then 0
    else RoundsAfter(es, k - 1, me, t) + if es[k - 1].Round? && es[k - 1].me == me && es[k - 1].now > t then 1 else 0
  }

  /** A monitor sleeps for the timeout between its rounds. */
  ghost predicate Sleeps(es: seq<Event>, timeout: int) {
    forall i, j :: 0 <= i < j < |es| && es[i].Round? && es[j].Round? && es[i].me == es[j].me ==>
      es[j].now - es[i].now >= timeout
  }

  /** So the last of several rounds after t is late enough. */
  lemma {:induction false} LastRound(es: seq<Event>, k: nat, me: int, t: int, timeout: int) returns (i: nat)
    requires k <= |es| && Sleeps(es, timeout) && RoundsAfter(es, k, me, t) > 0
    ensures i < k && es[i].Round? && es[i].me == me && es[i].now - t > (RoundsAfter(es, k, me, t) - 1) * timeout
  {
    i := k - 1;
    if !(es[i].Round? && es[i].me == me && es[i].now > t) {
      i := LastRound(es, k - 1, me, t, timeout);
    } else if RoundsAfter(es, k - 1, me, t) > 0 {
      var j := LastRound(es, k - 1, me, t, timeout);
      assert es[i].now - es[j].now >= timeout;
      OneMoreWait(RoundsAfter(es, k - 1, me, t), timeout);
    }
  }

  lemma OneMoreWait(n: int, timeout: int)
    ensures n * timeout == (n - 1) * timeout + timeout
  {
  }

  /** Time goes on. */
  lemma {:induction false} RoundsSoFar(ss: seq<Network>, es: seq<Event>, timeout: int, ids: set<int>, k: nat, me: int,
                                       t: int)
    requires Run(ss, es, timeout, ids) && k <= |es|
    ensures ss[k].timeout == timeout && (t >= ss[k].clock ==> RoundsAfter(es, k, me, t) == 0)
  {
    if k > 0 {
      RoundsSoFar(ss, es, timeout, ids, k - 1, me, t);
      assert Follows(ss[k - 1], es[k - 1], ss[k - 1 + 1]);
    }
  }

  /** An entry is due in a round, if it was not resent in one before. */
  lemma RoundCatchesUp(e: Entry, timeout: int, now: int, es: seq<Event>, k: nat, me: int)
    requires k < |es| && Sleeps(es, timeout) && es[k] == Round(me, now) && timeout >= 0
    requires Within(e, RoundsAfter(es, k, me, e.send))
    ensures Within(if Due(e, timeout, now) then Retried(e) else e, RoundsAfter(es, k + 1, me, e.send))
  {
    var n := RoundsAfter(es, k, me, e.send);
    if now <= e.send {
      NotYetDue(e, timeout, now);
    } else if e.numRetry + 1 == n {
      var i := LastRound(es, k, me, e.send, timeout);
      assert es[k].now - es[i].now >= timeout;
      OneMoreWait(n, timeout);
      assert timeout * (1 + e.numRetry) == n * timeout;
    }
  }

  lemma NotYetDue(e: Entry, timeout: int, now: int)
    requires timeout >= 0 && now <= e.send
    ensures !Due(e, timeout, now)
  {
    assert timeout * (1 + e.numRetry) >= 0;
  }

  /** It was resent in all of n rounds, but for at most one. */
  ghost predicate Within(e: Entry, n: nat) {
    n - 1 <= e.numRetry <= n
  }

  lemma RoundWithin(ss: seq<Network>, es: seq<Event>, timeout: int, ids: set<int>, k: nat, me: int, key: nat)
    requires Run(ss, es, timeout, ids) && k < |es| && Sleeps(es, timeout) && timeout >= 0
    requires me in ss[k].nodes && key in ss[k].nodes[me].buff
    requires Within(ss[k].nodes[me].buff[key], RoundsAfter(es, k, me, ss[k].nodes[me].buff[key].send))
    requires es[k].Round?
    ensures me in ss[k + 1].nodes && key in ss[k + 1].nodes[me].buff
    ensures Within(ss[k + 1].nodes[me].buff[key], RoundsAfter(es, k + 1, me, ss[k + 1].nodes[me].buff[key].send))
  {
    assert Follows(ss[k], es[k], ss[k + 1]);
    RoundsSoFar(ss, es, timeout, ids, k, me, 0);
    if es[k].me == me {
      RoundCatchesUp(ss[k].nodes[me].buff[key], timeout, es[k].now, es, k, me);
    }
  }

  /** An entry that was there before, or has just been added. */
  lemma EntryBefore(s: Network, e: Event, me: int, key: nat)
    requires Can(s, e) && !e.Round? && me in Apply(s, e).nodes && key in Apply(s, e).nodes[me].buff
    ensures me in s.nodes
    ensures key in s.nodes[me].buff ==> Apply(s, e).nodes[me].buff[key] == s.nodes[me].buff[key]
    ensures key !in s.nodes[me].buff ==>
      e.AddOut? && Apply(s, e).nodes[me].buff[key] == Entry(e.m, e.now, 0) && e.now >= s.clock
  {
  }

  /** Over every run, a message that is not acknowledged is resent in every round of the monitor since it was
      added, but for at most one, and once in each. */
  lemma {:induction false} ResentEachRound(ss: seq<Network>, es: seq<Event>, timeout: int, ids: set<int>, k: nat,
                                           me: int, key: nat)
    requires Run(ss, es, timeout, ids) && k <= |es| && Sleeps(es, timeout) && timeout >= 0
    requires me in ss[k].nodes && key in ss[k].nodes[me].buff
    ensures var e := ss[k].nodes[me].buff[key];
      RoundsAfter(es, k, me, e.send) - 1 <= e.numRetry <= RoundsAfter(es, k, me, e.send)
  {
    assert k > 0;
    assert Follows(ss[k - 1], es[k - 1], ss[k - 1 + 1]);
    if es[k - 1].Round? {
      assert me in ss[k - 1].nodes && key in ss[k - 1].nodes[me].buff;
      ResentEachRound(ss, es, timeout, ids, k - 1, me, key);
      RoundWithin(ss, es, timeout, ids, k - 1, me, key);
    } else {
      EntryBefore(ss[k - 1], es[k - 1], me, key);
      if key in ss[k - 1].nodes[me].buff {
        ResentEachRound(ss, es, timeout, ids, k - 1, me, key);
      } else {
        RoundsSoFar(ss, es, timeout, ids, k - 1, me, es[k - 1].now);
      }
    }
  }

  /** A round leaves alone exactly what has not waited for longer than timeout * (1 + retries), and raises the
      count of the rest by one. */
  lemma RoundLeaves(s: Network, me: int, now: int, key: nat)
    requires Can(s, Round(me, now)) && key in s.nodes[me].buff
    ensures var e := s.nodes[me].buff[key]; var t := Apply(s, Round(me, now));
      && key in t.nodes[me].buff && t.clock == now
      && (t.nodes[me].buff[key] == e <==> now - e.send <= s.timeout * (1 + e.numRetry))
      && (t.nodes[me].buff[key] != e ==> t.nodes[me].buff[key] == Entry(e.msg, e.send, e.numRetry + 1))
  {
  }

  // ---------- two messages with one key ----------

  /** A run in which only these two are sent, after which the second is neither buffered nor processed. */
  ghost predicate Loses(ss: seq<Network>, es: seq<Event>, timeout: int, ids: set<int>, a: Message, b: Message) {
    && Run(ss, es, timeout, ids)
    && (forall i :: 0 <= i < |es| && es[i].Transmit? ==> Resolved(es[i].m, es[i].me) in {a, b})
    && var s := ss[|es|]; (b.sender, b) in s.added && !Buffered(s, b.sender, b) && !IsProcessed(s, b.sender, b)
  }

  ghost predicate OnlyThese(wire: set<Packet>, a: Message, b: Message) {
    forall p :: p in wire && p.DataPacket? ==> p.m in {a, b}
  }

  lemma {:induction false} ApartIsClean(ss: seq<Network>, es: seq<Event>, timeout: int, ids: set<int>, a: Message,
                                        b: Message, k: nat)
    requires Run(ss, es, timeout, ids) && k <= |es| && !Meet(KeyOf, a, b)
    requires forall i :: 0 <= i < |es| && es[i].Transmit? ==> Resolved(es[i].m, es[i].me) in {a, b}
    ensures ss[k].key == KeyOf && OnlyThese(ss[k].wire, a, b) && forall i :: 0 <= i < k ==> Clean(ss[i], es[i])
  {
    if k > 0 {
      ApartIsClean(ss, es, timeout, ids, a, b, k - 1);
      assert Follows(ss[k - 1], es[k - 1], ss[k - 1 + 1]);
    }
  }

  /** Two that do not meet do not get lost. */
  lemma ApartIsKept(ss: seq<Network>, es: seq<Event>, timeout: int, ids: set<int>, a: Message, b: Message)
    requires !Meet(KeyOf, a, b)
    ensures !Loses(ss, es, timeout, ids, a, b)
  {
    if Loses(ss, es, timeout, ids, a, b) {
      ApartIsClean(ss, es, timeout, ids, a, b, |es|);
      RunsAreSafe(ss, es, timeout, ids, |es|);
      BufferedOrProcessed(ss[|es|], b.sender, b);
    }
  }

  lemma One(ss: seq<Network>, es: seq<Event>, e: Event, timeout: int, ids: set<int>)
      returns (ss': seq<Network>, es': seq<Event>)
    requires Run(ss, es, timeout, ids) && Can(ss[|es|], e)
    ensures Run(ss', es', timeout, ids) && es' == es + [e] && ss'[|es'|] == Apply(ss[|es|], e)
  {
    ss', es' := ss + [Apply(ss[|es|], e)], es + [e];
    forall i | 0 <= i < |es'| ensures Follows(ss'[i], es'[i], ss'[i + 1]) {
      if i < |es| {
        assert Follows(ss[i], es[i], ss[i + 1]);
      }
    }
  }

  lemma Begins(timeout: int, ids: set<int>)
    ensures Run([Init(timeout, KeyOf, ids)], [], timeout, ids)
  {
  }

  /** Both are put on the wire. */
  lemma BothSent(timeout: int, ids: set<int>, a: Message, b: Message) returns (ss: seq<Network>, es: seq<Event>)
    requires {a.sender, b.sender} <= ids && a.sender != EMPTY && b.sender != EMPTY
    ensures Run(ss, es, timeout, ids) && es == [Transmit(a.sender, a), Transmit(b.sender, b)]
    ensures ss[|es|] == Init(timeout, KeyOf, ids).(wire := {DataPacket(a), DataPacket(b)})
  {
    Begins(timeout, ids);
    ss, es := One([Init(timeout, KeyOf, ids)], [], Transmit(a.sender, a), timeout, ids);
    ss, es := One(ss, es, Transmit(b.sender, b), timeout, ids);
    assert ss[|es|].wire == {DataPacket(a), DataPacket(b)};
  }

  /** At one sender, the entry of the first keeps the second out. */
  lemma SenderLoses(timeout: int, ids: set<int>, a: Message, b: Message) returns (ss: seq<Network>, es: seq<Event>)
    requires a != b && KeyOf(a) == KeyOf(b) && a.sender == b.sender && a.sender in ids && a.sender != EMPTY
    ensures Loses(ss, es, timeout, ids, a, b)
  {
    ss, es := BothSent(timeout, ids, a, b);
    ss, es := One(ss, es, AddOut(a.sender, a, 0), timeout, ids);
    ss, es := One(ss, es, AddOut(b.sender, b, 0), timeout, ids);
  }

  /** At one receiver, the second is taken for the first: acknowledged, and dropped by its sender. */
  lemma ReceiverLoses(timeout: int, ids: set<int>, a: Message, b: Message) returns (ss: seq<Network>, es: seq<Event>)
    requires a != b && KeyOf(a) == KeyOf(b) && a.recver == b.recver && {a.sender, b.sender, a.recver} <= ids
    requires a.sender != EMPTY && b.sender != EMPTY
    ensures Loses(ss, es, timeout, ids, a, b)
  {
    ss, es := BothSent(timeout, ids, a, b);
    ss, es := One(ss, es, AddOut(b.sender, b, 0), timeout, ids);
    ss, es := One(ss, es, ArriveData(a), timeout, ids);
    assert ss[|es|].processed == [Processed(a.recver, a)];
    ss, es := One(ss, es, ArriveData(b), timeout, ids);
    assert ss[|es|].processed == [Processed(a.recver, a)] && (b.sender, b) in ss[|es|].added;
    ss, es := One(ss, es, ArriveAck(b.sender, b.recver, KeyOf(b)), timeout, ids);
  }

  /** Of two messages one can get lost by the other exactly if they have one key and share their sender or
      their receiver. */
  lemma TwinsLose(timeout: int, ids: set<int>, a: Message, b: Message)
    requires a != b && {a.sender, a.recver, b.sender, b.recver} <= ids && a.sender != EMPTY && b.sender != EMPTY
    ensures (exists ss, es :: Loses(ss, es, timeout, ids, a, b)) <==> Meet(KeyOf, a, b)
  {
    if !Meet(KeyOf, a, b) {
      forall ss, es ensures !Loses(ss, es, timeout, ids, a, b) {
        ApartIsKept(ss, es, timeout, ids, a, b);
      }
    } else if a.sender == b.sender {
      var ss, es := SenderLoses(timeout, ids, a, b);
    } else {
      var ss, es := ReceiverLoses(timeout, ids, a, b);
    }
  }
}
