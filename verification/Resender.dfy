/**
 Resending on timeout and dropping duplicates (src/resender.h, called from src/van.cc).

 The network may lose, repeat and reorder: it is the set of everything ever put on the wire,
 and any of it may arrive at any time, any number of times.
 */
module Resender {
  import opened Collections
  import opened Powers

  /** Meta::kEmpty, the largest int. */
  const EMPTY: int := 0x7fff_ffff

  /** A message that is neither an acknowledgement nor TERMINATE. */
  datatype Message = Message(appId: int, sender: int, recver: int, timestamp: int, request: bool, body: seq<int>)

  // ---------- keys ----------

  /** The sender's own id stands in for one not yet set; on the wire it is set. */
  function Resolved(m: Message, me: int): Message {
    if m.sender == EMPTY then m.(sender := me) else m
  }

  /** Casting keeps the low bits, also of a negative number. */
  function High(m: Message): nat {
    (m.appId % TWO_TO_16) * TWO_TO_16 + (m.sender % TWO_TO_8) * TWO_TO_8 + m.recver % TWO_TO_8
  }

  /** timestamp << 1 | request as a 32-bit int, by its bits. */
  function Low(m: Message): nat {
    (2 * m.timestamp + if m.request then 1 else 0) % TWO_TO_32
  }

  /** The ids in the high half, the timestamp in the low half; a timestamp that reaches the sign
      bit of its int is sign-extended, which sets the whole high half. */
  function GetKey(m: Message, me: int): nat {
    var r := Resolved(m, me);
    if Low(r) >= TWO_TO_31 then (TWO_TO_32 - 1) * TWO_TO_32 + Low(r) else High(r) * TWO_TO_32 + Low(r)
  }

  /** What a message is known by. */
  predicate SameIdentity(a: Message, b: Message) {
    && a.appId == b.appId && a.sender == b.sender && a.recver == b.recver
    && a.timestamp == b.timestamp && a.request == b.request
  }

  predicate InRange(m: Message) {
    && 0 <= m.appId < TWO_TO_16 && 0 <= m.sender < TWO_TO_8 && 0 <= m.recver < TWO_TO_8
    && 0 <= m.timestamp < TWO_TO_30
  }

  lemma SplitKey(h: int, l: int, h': int, l': int)
    requires 0 <= l < TWO_TO_32 && 0 <= l' < TWO_TO_32
    ensures h * TWO_TO_32 + l == h' * TWO_TO_32 + l' <==> h == h' && l == l'
  {
  }

  /** Exactly when two keys are equal, for messages of any kind: the low halves agree, and so do
      the truncated ids unless the sign bit has wiped them out. */
  lemma KeysEqual(a: Message, b: Message, me: int)
    requires a.sender != EMPTY && b.sender != EMPTY
    ensures GetKey(a, me) == GetKey(b, me) <==>
      Low(a) == Low(b) && (Low(a) >= TWO_TO_31 || High(a) == High(b))
  {
    HighBound(a);
    HighBound(b);
    SplitKey(if Low(a) >= TWO_TO_31 then TWO_TO_32 - 1 else High(a), Low(a),
             if Low(b) >= TWO_TO_31 then TWO_TO_32 - 1 else High(b), Low(b));
  }

  lemma HighBound(m: Message)
    ensures High(m) < TWO_TO_32
  {
  }

  /** The ids agree in their low 16, 8 and 8 bits. */
  lemma HighEqual(a: Message, b: Message)
    ensures High(a) == High(b) <==>
      a.appId % TWO_TO_16 == b.appId % TWO_TO_16 && a.sender % TWO_TO_8 == b.sender % TWO_TO_8 &&
      a.recver % TWO_TO_8 == b.recver % TWO_TO_8
  {
  }

  lemma LowEqual(a: Message, b: Message)
    requires 0 <= a.timestamp < TWO_TO_30 && 0 <= b.timestamp < TWO_TO_30
    ensures Low(a) < TWO_TO_31 && (Low(a) == Low(b) <==> a.timestamp == b.timestamp && a.request == b.request)
  {
  }

  /** In range, keys never collide. */
  lemma KeysDistinct(a: Message, b: Message, me: int, me': int)
    requires InRange(a) && InRange(b)
    ensures GetKey(a, me) == GetKey(b, me') <==> SameIdentity(a, b)
  {
    KeysEqual(a, b, me);
    HighDistinct(a, b);
    LowEqual(a, b);
    assert GetKey(b, me) == GetKey(b, me');
  }

  /** In range, nothing is cut off. */
  lemma HighDistinct(a: Message, b: Message)
    requires InRange(a) && InRange(b)
    ensures High(a) == High(b) <==> a.appId == b.appId && a.sender == b.sender && a.recver == b.recver
  {
    HighEqual(a, b);
    Uncut(a);
    Uncut(b);
  }

  /** In range, a key has its parts side by side: 16, 8, 8 and 31 bits, and the request bit. */
  lemma KeyParts(m: Message, me: int)
    requires InRange(m)
    ensures GetKey(m, me) == m.appId * 0x1_0000_0000_0000 + m.sender * 0x100_0000_0000 + m.recver * 0x1_0000_0000
                             + 2 * m.timestamp + if m.request then 1 else 0
  {
    Uncut(m);
  }

  lemma Uncut(m: Message)
    requires InRange(m)
    ensures m.appId % TWO_TO_16 == m.appId && m.sender % TWO_TO_8 == m.sender && m.recver % TWO_TO_8 == m.recver
  {
  }

  /** Out of range they do: node ids that are 256 apart, and any two ids once the timestamp
      reaches 2^30. */
  lemma KeysCollide(m: Message, me: int)
    requires m.sender < m.sender + 256 < EMPTY
    ensures GetKey(m.(sender := m.sender + 256), me) == GetKey(m, me)
    ensures var late := m.(timestamp := TWO_TO_30); GetKey(late.(sender := m.sender + 1), me) == GetKey(late, me)
  {
    var apart := m.(sender := m.sender + 256);
    HighEqual(apart, m);
    KeysEqual(apart, m, me);
    var late := m.(timestamp := TWO_TO_30);
    KeysEqual(late.(sender := m.sender + 1), late, me);
  }

  // ---------- one node ----------

  datatype Entry = Entry(msg: Message, send: int, numRetry: nat)

  /** What arrives: a message, the acknowledgement of a key, or the end of all. */
  datatype Arrival = Data(m: Message) | Ack(key: nat) | Terminate

  /** An entry is due for its next resend. */
  predicate Due(e: Entry, timeout: int, now: int) {
    e.send + timeout * (1 + e.numRetry) < now
  }

  function Retried(e: Entry): Entry {
    e.(numRetry := e.numRetry + 1)
  }

  /** A round of the monitor, on the buffer. */
  function Bumped(buff: map<nat, Entry>, timeout: int, now: int): map<nat, Entry> {
    map k | k in buff :: if Due(buff[k], timeout, now) then Retried(buff[k]) else buff[k]
  }

  /** An entry that was just resent has waited for longer than all its retries together. */
  lemma RetryBound(e: Entry, timeout: int, now: int)
    requires Due(e, timeout, now)
    ensures Retried(e).numRetry * timeout < now - Retried(e).send
  {
    assert timeout * (1 + e.numRetry) == Retried(e).numRetry * timeout;
  }

  class Resender {
    const timeout: int
    const maxNumRetry: nat
    /** van_->my_node().id. */
    const me: int
    var sendBuff: map<nat, Entry>
    var acked: set<nat>

    constructor (timeout: int, maxNumRetry: nat, me: int)
      ensures this.timeout == timeout && this.maxNumRetry == maxNumRetry && this.me == me
      ensures sendBuff == map[] && acked == {}
    {
      this.timeout, this.maxNumRetry, this.me := timeout, maxNumRetry, me;
      sendBuff, acked := map[], {};
    }

    /** A message that is buffered already keeps its entry. */
    method AddOutgoing(m: Message, now: int)
      modifies `sendBuff
      ensures GetKey(m, me) in old(sendBuff) ==> sendBuff == old(sendBuff)
      ensures GetKey(m, me) !in old(sendBuff) ==> sendBuff == old(sendBuff)[GetKey(m, me) := Entry(m, now, 0)]
      ensures sendBuff == Outgoing(old(sendBuff), GetKey(m, me), m, now)
    {
      var key := GetKey(m, me);
      if key in sendBuff {
        return;
      }
      sendBuff := sendBuff[key := Entry(m, now, 0)];
    }

    /** True for a duplicate and for an acknowledgement; else the caller goes on to process it.
        A message is acknowledged either way, to its sender. */
    method AddIncomming(a: Arrival) returns (drop: bool, ack: seq<(int, nat)>)
      modifies `sendBuff, `acked
      ensures a.Terminate? ==> !drop && ack == [] && acked == old(acked) && sendBuff == old(sendBuff)
      ensures a.Ack? ==> drop && ack == [] && acked == old(acked) && sendBuff == old(sendBuff) - {a.key}
      ensures a.Data? ==> sendBuff == old(sendBuff) && ack == [(a.m.sender, GetKey(a.m, me))]
      ensures a.Data? ==> (drop <==> GetKey(a.m, me) in old(acked)) && acked == old(acked) + {GetKey(a.m, me)}
    {
      match a
      case Terminate =>
        return false, [];
      case Ack(key) =>
        if key in sendBuff {
          sendBuff := sendBuff - {key};
        }
        return true, [];
      case Data(m) =>
        var key := GetKey(m, me);
        drop := key in acked;
        if !drop {
          acked := acked + {key};
        }
        ack := [(m.sender, key)];
    }

    /** One round of the monitor: in whatever order the buffer is walked, an entry is resent, once, and its
        count raised, exactly if it has waited for more than timeout * (1 + retries); or failure, if one has
        been retried too often.  The keys are those resent, in order. */
    method Monitor(now: int) returns (resend: seq<Message>, ok: bool, ghost keys: seq<nat>)
      modifies `sendBuff
      ensures ok ==> sendBuff == Bumped(old(sendBuff), timeout, now)
      ensures ok ==> sendBuff.Keys == old(sendBuff).Keys && forall k :: k in old(sendBuff) ==>
        var e := old(sendBuff)[k];
        sendBuff[k] == if now - e.send > timeout * (1 + e.numRetry) then e.(numRetry := e.numRetry + 1) else e
      ensures ok <==> forall k :: k in old(sendBuff) ==>
        var e := old(sendBuff)[k];
        now - e.send > timeout * (1 + e.numRetry) ==> e.numRetry + 1 < maxNumRetry
      ensures Unrepeated(keys) && |resend| == |keys|
      ensures forall i :: 0 <= i < |keys| ==>
        && keys[i] in old(sendBuff) && resend[i] == old(sendBuff)[keys[i]].msg
        && var e := old(sendBuff)[keys[i]]; now - e.send > timeout * (1 + e.numRetry)
      ensures ok ==> forall k :: k in old(sendBuff) ==>
        var e := old(sendBuff)[k];
        now - e.send > timeout * (1 + e.numRetry) ==> k in keys
    {
      resend, ok, keys := [], true, [];
      var rest := sendBuff.Keys;
      ghost var was := sendBuff;
      while rest != {}
        invariant rest <= was.Keys == sendBuff.Keys && ok
        invariant Walked(was, sendBuff, rest, timeout, now, maxNumRetry)
        invariant Resent(was, rest, timeout, now, keys, resend)
        decreases rest
      {
        var k :| k in rest;
        var e := sendBuff[k];
        ghost var before := rest;
        rest := rest - {k};
        if Due(e, timeout, now) {
          ResentMore(was, before, timeout, now, keys, resend, k);
          resend, keys := resend + [e.msg], keys + [k];
          sendBuff := sendBuff[k := Retried(e)];
          if e.numRetry + 1 >= maxNumRetry {
            ok := false;
            TooOften(was, timeout, now, maxNumRetry, k);
            return;
          }
        }
      }
      Walks(was, sendBuff, timeout, now, maxNumRetry);
    }
  }

  /** The entries walked over have been raised if they were due, and not too often; the rest is as it was. */
  ghost predicate Walked(was: map<nat, Entry>, buff: map<nat, Entry>, rest: set<nat>, timeout: int, now: int,
                         max: nat) {
    && buff.Keys == was.Keys
    && (forall k :: k in was ==> buff[k] == if k !in rest && Due(was[k], timeout, now) then Retried(was[k]) else was[k])
    && (forall k :: k in was && k !in rest && Due(was[k], timeout, now) ==> was[k].numRetry + 1 < max)
  }

  /** Of these, exactly those due have been resent, once each. */
  ghost predicate Resent(was: map<nat, Entry>, rest: set<nat>, timeout: int, now: int, keys: seq<nat>,
                         resend: seq<Message>) {
    && Unrepeated(keys) && |resend| == |keys|
    && (forall i :: 0 <= i < |keys| ==>
      keys[i] in was && keys[i] !in rest && Due(was[keys[i]], timeout, now) && resend[i] == was[keys[i]].msg)
    && (forall k :: k in was && k !in rest && Due(was[k], timeout, now) ==> k in keys)
  }

  lemma ResentMore(was: map<nat, Entry>, rest: set<nat>, timeout: int, now: int, keys: seq<nat>, resend: seq<Message>,
                   k: nat)
    requires Resent(was, rest, timeout, now, keys, resend) && k in was && k in rest && Due(was[k], timeout, now)
    ensures Resent(was, rest - {k}, timeout, now, keys + [k], resend + [was[k].msg])
  {
    var keys' := keys + [k];
    forall i, j | 0 <= i < j < |keys'| ensures keys'[i] != keys'[j] {
      assert keys[i] !in rest;
    }
    assert keys'[|keys|] == k;
  }

  lemma DueMeans(e: Entry, timeout: int, now: int)
    ensures Due(e, timeout, now) <==> now - e.send > timeout * (1 + e.numRetry)
  {
  }

  lemma TooOften(was: map<nat, Entry>, timeout: int, now: int, max: nat, k: nat)
    requires k in was && Due(was[k], timeout, now) && was[k].numRetry + 1 >= max
    ensures !forall k :: k in was ==>
      var e := was[k]; now - e.send > timeout * (1 + e.numRetry) ==> e.numRetry + 1 < max
  {
    DueMeans(was[k], timeout, now);
  }

  lemma Walks(was: map<nat, Entry>, buff: map<nat, Entry>, timeout: int, now: int, max: nat)
    requires Walked(was, buff, {}, timeout, now, max)
    ensures buff == Bumped(was, timeout, now)
  {
  }

  function Outgoing(buff: map<nat, Entry>, key: nat, m: Message, now: int): map<nat, Entry> {
    if key in buff then buff else buff[key := Entry(m, now, 0)]
  }
}
