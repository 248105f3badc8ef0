/**
 The cache of session tickets (ticket_store.c): a list, newest first, from which older
 tickets for the same server and protocol are pruned.
 */
module TicketStore {
  import opened Options
  import opened Powers
  import opened TicketCodec
  import opened Varint

  predicate SameKey(t: Ticket, sni: seq<int>, alpn: seq<int>) {
    t.sni == sni && t.alpn == alpn
  }

  /** The first ticket for a server and protocol that is still valid. */
  function Lookup(ts: seq<Ticket>, now: nat, sni: seq<int>, alpn: seq<int>): Option<Ticket> {
    if ts == [] then None
    else if ts[0].timeValidUntil > now && SameKey(ts[0], sni, alpn) then Some(ts[0])
    else Lookup(ts[1..], now, sni, alpn)
  }

  /** A ticket that a new one makes useless. */
  predicate Outdone(t: Ticket, newer: Ticket) {
    t.timeValidUntil <= newer.timeValidUntil && SameKey(t, newer.sni, newer.alpn)
  }

  function Pruned(ts: seq<Ticket>, newer: Ticket): seq<Ticket> {
    if ts == [] then []
    else
      var k := |ts| - 1;
      Pruned(ts[..k], newer) + if Outdone(ts[k], newer) then [] else [ts[k]]
  }

  function Stored(ts: seq<Ticket>, t: Ticket): seq<Ticket> {
    [t] + Pruned(ts, t)
  }

  /** What is found is in the list, for that server and protocol, and still valid; and if nothing is found there is
      no such ticket. */
  lemma {:induction false} LookupFinds(ts: seq<Ticket>, now: nat, sni: seq<int>, alpn: seq<int>)
    ensures var r := Lookup(ts, now, sni, alpn);
      && (r.Some? ==> r.value in ts && r.value.sni == sni && r.value.alpn == alpn && r.value.timeValidUntil > now)
      && (r.None? ==> forall t :: t in ts ==> t.sni != sni || t.alpn != alpn || t.timeValidUntil <= now)
  {
    if ts != [] {
      LookupFinds(ts[1..], now, sni, alpn);
      assert forall t :: t in ts ==> t == ts[0] || t in ts[1..];
    }
  }

  /** And it is the newest of those. */
  lemma {:induction false} LookupNewest(ts: seq<Ticket>, now: nat, sni: seq<int>, alpn: seq<int>) returns (i: nat)
    requires Lookup(ts, now, sni, alpn).Some?
    ensures i < |ts| && Lookup(ts, now, sni, alpn) == Some(ts[i])
    ensures forall j :: 0 <= j < i ==> ts[j].sni != sni || ts[j].alpn != alpn || ts[j].timeValidUntil <= now
  {
    i := 0;
    if !(ts[0].timeValidUntil > now && SameKey(ts[0], sni, alpn)) {
      var k := LookupNewest(ts[1..], now, sni, alpn);
      i := k + 1;
    }
  }

  /** What is pruned is for the same server and protocol, and not valid for longer; all else stays. */
  lemma {:induction false} PrunedExactly(ts: seq<Ticket>, newer: Ticket, t: Ticket)
    ensures t in Pruned(ts, newer) <==>
      t in ts && !(t.sni == newer.sni && t.alpn == newer.alpn && t.timeValidUntil <= newer.timeValidUntil)
  {
    if ts != [] {
      var k := |ts| - 1;
      PrunedExactly(ts[..k], newer, t);
      assert t in ts <==> t in ts[..k] || t == ts[k];
    }
  }

  // ---------- pruning does not change what is found ----------

  lemma {:induction false} LookupConcat(a: seq<Ticket>, b: seq<Ticket>, now: nat, sni: seq<int>, alpn: seq<int>)
    ensures Lookup(a + b, now, sni, alpn) ==
      if Lookup(a, now, sni, alpn).Some? then Lookup(a, now, sni, alpn) else Lookup(b, now, sni, alpn)
  {
    if a == [] {
      assert a + b == b;
    } else {
      LookupConcat(a[1..], b, now, sni, alpn);
      assert (a + b)[1..] == a[1..] + b;
    }
  }

  /** Pruning only matters to a lookup that would find the new ticket anyway. */
  lemma {:induction false} PrunedLookup(ts: seq<Ticket>, t: Ticket, now: nat, sni: seq<int>, alpn: seq<int>)
    requires !(t.timeValidUntil > now && SameKey(t, sni, alpn))
    ensures Lookup(Pruned(ts, t), now, sni, alpn) == Lookup(ts, now, sni, alpn)
  {
    if ts != [] {
      var k := |ts| - 1;
      var last := if Outdone(ts[k], t) then [] else [ts[k]];
      PrunedLookup(ts[..k], t, now, sni, alpn);
      assert ts == ts[..k] + [ts[k]];
      LookupConcat(ts[..k], [ts[k]], now, sni, alpn);
      LookupConcat(Pruned(ts[..k], t), last, now, sni, alpn);
      assert [ts[k]][1..] == [];
    }
  }

  lemma StoredLookup(ts: seq<Ticket>, all: seq<Ticket>, t: Ticket, now: nat, sni: seq<int>, alpn: seq<int>)
    requires Lookup(ts, now, sni, alpn) == Lookup(all, now, sni, alpn)
    ensures Lookup(Stored(ts, t), now, sni, alpn) == Lookup([t] + all, now, sni, alpn)
  {
    assert Stored(ts, t)[1..] == Pruned(ts, t) && ([t] + all)[1..] == all;
    if !(t.timeValidUntil > now && SameKey(t, sni, alpn)) {
      PrunedLookup(ts, t, now, sni, alpn);
    }
  }

  // ---------- runs ----------

  /** A request to store: the time, and the ticket as it came. */
  datatype Request = Request(now: nat, sni: seq<int>, alpn: seq<int>, body: seq<int>)

  const MAX_TTL: nat := 7 * 24 * 3600

  /** Until when a ticket is valid: its own time of issue in milliseconds, and its lifetime in
      seconds, but no more than a week; in microseconds, in 64 bits. */
  function ValidUntil(body: seq<int>): nat
    requires |body| >= 17 && IsBytes(body)
  {
    var ttl := Parse32(body[13..]);
    (Parse64(body) * 1000 + (if ttl > MAX_TTL then MAX_TTL else ttl) * 1000000) % TWO_TO_64
  }

  ghost function Least(a: int, b: int): int {
    if a <= b then a else b
  }

  /** From the issue time in the first eight bytes and the lifetime in bytes 13 to 16, at most a week. */
  lemma ValidUntilMeans(body: seq<int>)
    requires |body| >= 17 && IsBytes(body)
    ensures ValidUntil(body) ==
      (BigEndian(body[..8]) * 1000 + Least(BigEndian(body[13..17]), 604800) * 1000000) % TWO_TO_64
  {
    ParsesBigEndian(body);
    ParsesBigEndian(body[13..]);
    assert body[13..][..4] == body[13..17];
  }

  predicate Acceptable(r: Request)
    requires IsBytes(r.body)
  {
    |r.body| >= 17 && (r.now == 0 || ValidUntil(r.body) >= r.now)
  }

  function TicketOf(r: Request): Ticket
    requires IsBytes(r.body) && Acceptable(r)
  {
    Ticket(ValidUntil(r.body), r.sni, r.alpn, r.body)
  }

  ghost predicate AllBytes(rs: seq<Request>) {
    forall i :: 0 <= i < |rs| ==> IsBytes(rs[i].body)
  }

  /** The list after some requests, and everything that was ever stored, newest first. */
  ghost function After(rs: seq<Request>): seq<Ticket>
    requires AllBytes(rs)
  {
    if rs == [] then []
    else
      var k := |rs| - 1;
      if Acceptable(rs[k]) then Stored(After(rs[..k]), TicketOf(rs[k])) else After(rs[..k])
  }

  ghost function History(rs: seq<Request>): seq<Ticket>
    requires AllBytes(rs)
  {
    if rs == [] then []
    else
      var k := |rs| - 1;
      if Acceptable(rs[k]) then [TicketOf(rs[k])] + History(rs[..k]) else History(rs[..k])
  }

  /** After any run, any lookup at any time finds what it would have found in everything stored. */
  lemma {:induction false} PruningIsInvisible(rs: seq<Request>, now: nat, sni: seq<int>, alpn: seq<int>)
    requires AllBytes(rs)
    ensures Lookup(After(rs), now, sni, alpn) == Lookup(History(rs), now, sni, alpn)
  {
    if rs != [] {
      var k := |rs| - 1;
      PruningIsInvisible(rs[..k], now, sni, alpn);
      if Acceptable(rs[k]) {
        StoredLookup(After(rs[..k]), History(rs[..k]), TicketOf(rs[k]), now, sni, alpn);
      }
    }
  }

  // ---------- the list ----------

  class StoredTicket {
    const t: Ticket
    var nextTicket: StoredTicket?

    constructor (t: Ticket, next: StoredTicket?)
      ensures this.t == t && nextTicket == next
    {
      this.t, nextTicket := t, next;
    }
  }

  ghost function Items(q: seq<StoredTicket>): set<StoredTicket> {
    set x | x in q
  }

  function Tickets(q: seq<StoredTicket>): seq<Ticket> {
    if q == [] then [] else Tickets(q[..|q| - 1]) + [q[|q| - 1].t]
  }

  ghost predicate Chained(q: seq<StoredTicket>)
    reads Items(q)
  {
    && (forall i, j :: 0 <= i < j < |q| ==> q[i] != q[j])
    && (forall i, j :: 0 <= i < j < |q| && j == i + 1 ==> q[i].nextTicket == q[j])
    && (q != [] ==> q[|q| - 1].nextTicket == null)
  }

  function First(q: seq<StoredTicket>): StoredTicket? {
    if q == [] then null else q[0]
  }

  class TicketList {
    var first: StoredTicket?
    ghost var q: seq<StoredTicket>

    ghost predicate Valid()
      reads this, Items(q)
    {
      Chained(q) && first == First(q)
    }

    constructor ()
      ensures Valid() && q == []
    {
      first, q := null, [];
    }

    /** False, and nothing stored, for a ticket too short or no longer valid. */
    method StoreTicket(r: Request) returns (ok: bool)
      requires Valid() && IsBytes(r.body)
      modifies this, Items(q)
      ensures Valid() && (ok <==> Acceptable(r)) && fresh(Items(q) - old(Items(q)))
      ensures Tickets(q) == if ok then Stored(old(Tickets(q)), TicketOf(r)) else old(Tickets(q))
      ensures ok ==> |r.body| >= 17 && Tickets(q)[0] == Ticket(Tickets(q)[0].timeValidUntil, r.sni, r.alpn, r.body)
      ensures |r.body| >= 17 ==>
        var until := (BigEndian(r.body[..8]) * 1000 + Least(BigEndian(r.body[13..17]), 604800) * 1000000) % TWO_TO_64;
        && (ok <==> r.now == 0 || r.now <= until) && (ok ==> Tickets(q)[0].timeValidUntil == until)
    {
      if |r.body| >= 17 {
        ValidUntilMeans(r.body);
      }
      if |r.body| < 17 {
        return false;
      }
      var until := ValidUntil(r.body);
      if r.now != 0 && until < r.now {
        return false;
      }
      var stored := new StoredTicket(Ticket(until, r.sni, r.alpn, r.body), first);
      first := stored;
      ghost var was := q;
      ghost var kept := Prune(stored, was, Items([stored] + was));
      q := kept;
      ok := true;
    }

    /** A lookup walks the list. */
    method GetTicket(now: nat, sni: seq<int>, alpn: seq<int>) returns (r: Option<Ticket>)
      requires Valid()
      ensures r == Lookup(Tickets(q), now, sni, alpn)
      ensures r.Some? ==>
        r.value in Tickets(q) && r.value.sni == sni && r.value.alpn == alpn && r.value.timeValidUntil > now
      ensures r.None? ==> forall t :: t in Tickets(q) ==> t.sni != sni || t.alpn != alpn || t.timeValidUntil <= now
    {
      LookupFinds(Tickets(q), now, sni, alpn);
      var next := first;
      ghost var k := 0;
      while next != null
        invariant k <= |q| && next == First(q[k..])
        invariant Lookup(Tickets(q), now, sni, alpn) == Lookup(Tickets(q[k..]), now, sni, alpn)
        decreases |q| - k
      {
        TicketsHead(q[k..]);
        assert q[k..][1..] == q[k + 1..];
        if next.t.timeValidUntil > now && SameKey(next.t, sni, alpn) {
          return Some(next.t);
        }
        next := next.nextTicket;
        k := k + 1;
      }
      assert q[k..] == [];
      return None;
    }
  }

  lemma {:induction false} TicketsHead(q: seq<StoredTicket>)
    requires q != []
    ensures |Tickets(q)| == |q| && Tickets(q)[0] == q[0].t && Tickets(q)[1..] == Tickets(q[1..])
  {
    var k := |q| - 1;
    if k == 0 {
      assert Tickets(q) == Tickets([]) + [q[0].t];
    } else {
      TicketsHead(q[..k]);
      assert q[1..][..k - 1] == q[..k][1..];
      assert Tickets(q[1..]) == Tickets(q[..k][1..]) + [q[k].t];
    }
  }

  lemma TicketsMore(q: seq<StoredTicket>, x: StoredTicket)
    ensures Tickets(q + [x]) == Tickets(q) + [x.t]
  {
    assert (q + [x])[..|q|] == q;
  }

  /** In a chain, a ticket points to the one behind it. */
  lemma NextOf(kept: seq<StoredTicket>, rest: seq<StoredTicket>)
    requires Chained(kept + rest) && kept != []
    ensures kept[|kept| - 1].nextTicket == First(rest)
    ensures rest != [] ==> rest[0].nextTicket == First(rest[1..])
  {
    var q := kept + rest;
    assert q[|kept| - 1] == kept[|kept| - 1];
    if rest != [] {
      assert q[|kept|] == rest[0];
      assert |rest| > 1 ==> q[|kept| + 1] == rest[1];
    }
  }

  /** Unlink the first of the rest. */
  method Unlink(previous: StoredTicket, ghost kept: seq<StoredTicket>, ghost rest: seq<StoredTicket>,
                next: StoredTicket?)
    requires Chained(kept + rest) && kept != [] && rest != [] && previous == kept[|kept| - 1]
    requires next == First(rest[1..])
    modifies previous
    ensures Chained(kept + rest[1..])
  {
    ghost var q, r := kept + rest, kept + rest[1..];
    NextOf(kept, rest);
    ghost var k := |kept| - 1;
    assert q[k] == previous && forall i, j :: 0 <= i < j < |q| ==> q[i] != q[j];
    assert forall i :: 0 <= i < |r| ==> r[i] == q[if i < |kept| then i else i + 1];
    previous.nextTicket := next;
    forall i, j | 0 <= i < j < |r| && j == i + 1 ensures r[i].nextTicket == r[j] {
      if i != k {
        assert r[i] != previous;
        assert old(q[if i < |kept| then i else i + 1].nextTicket) == r[j];
      }
    }
  }

  /** One ticket: unlink it, or go on behind it. */
  method PruneOne(previous: StoredTicket, x: StoredTicket, t: Ticket, ghost kept: seq<StoredTicket>,
                  ghost rest: seq<StoredTicket>)
    returns (previous': StoredTicket, next: StoredTicket?, ghost kept': seq<StoredTicket>)
    requires Chained(kept + rest) && kept != [] && rest != [] && previous == kept[|kept| - 1] && x == rest[0]
    modifies previous
    ensures kept' == (if Outdone(x.t, t) then kept else kept + [x]) && previous' == kept'[|kept'| - 1]
    ensures Chained(kept' + rest[1..]) && next == First(rest[1..])
  {
    NextOf(kept, rest);
    next := x.nextTicket;
    if Outdone(x.t, t) {
      Unlink(previous, kept, rest, next);
      previous', kept' := previous, kept;
    } else {
      previous', kept' := x, kept + [x];
      assert kept + rest == kept' + rest[1..];
    }
  }

  /** What is kept of the first n tickets, behind the new one. */
  ghost predicate Pruning(stored: StoredTicket, kept: seq<StoredTicket>, was: seq<StoredTicket>, n: nat,
                          cells: set<StoredTicket>) {
    && n <= |was| && kept != [] && kept[0] == stored && Within(kept, cells) && Within(was, cells)
    && Tickets(kept) == Stored(Tickets(was[..n]), stored.t)
  }

  lemma PruningMore(stored: StoredTicket, kept: seq<StoredTicket>, was: seq<StoredTicket>, n: nat,
                    cells: set<StoredTicket>)
    requires n < |was| && Pruning(stored, kept, was, n, cells)
    ensures Pruning(stored, if Outdone(was[n].t, stored.t) then kept else kept + [was[n]], was, n + 1, cells)
  {
    PrunedMore(was[..n], was[n], stored.t);
    TicketsMore(kept, was[n]);
    assert was[..n + 1] == was[..n] + [was[n]];
  }

  method PruneAt(stored: StoredTicket, previous: StoredTicket, x: StoredTicket, ghost kept: seq<StoredTicket>,
                 ghost was: seq<StoredTicket>, ghost n: nat, ghost cells: set<StoredTicket>)
    returns (previous': StoredTicket, next: StoredTicket?, ghost kept': seq<StoredTicket>)
    requires n < |was| && x == was[n] && Chained(kept + was[n..]) && Pruning(stored, kept, was, n, cells)
    requires previous == kept[|kept| - 1]
    modifies cells
    ensures Chained(kept' + was[n + 1..]) && next == First(was[n + 1..])
    ensures Pruning(stored, kept', was, n + 1, cells) && previous' == kept'[|kept'| - 1]
  {
    PruningMore(stored, kept, was, n, cells);
    assert was[n..][1..] == was[n + 1..];
    previous', next, kept' := PruneOne(previous, x, stored.t, kept, was[n..]);
  }

  /** Walk the tickets behind the new one and unlink those it outdoes. */
  method Prune(stored: StoredTicket, ghost was: seq<StoredTicket>, ghost cells: set<StoredTicket>)
    returns (ghost kept: seq<StoredTicket>)
    requires Chained([stored] + was) && Within([stored] + was, cells)
    modifies cells
    ensures Chained(kept) && kept != [] && kept[0] == stored && Within(kept, cells)
    ensures Tickets(kept) == Stored(Tickets(was), stored.t)
  {
    kept := [stored];
    NextOf(kept, was);
    assert ([stored] + was)[0] == stored;
    assert Within(was, cells) by {
      assert forall i :: 0 <= i < |was| ==> ([stored] + was)[i + 1] == was[i];
    }
    var previous, next := stored, stored.nextTicket;
    ghost var n := 0;
    while next != null
      invariant n <= |was| && Chained(kept + was[n..]) && next == First(was[n..])
      invariant Pruning(stored, kept, was, n, cells) && previous == kept[|kept| - 1]
      decreases |was| - n
    {
      previous, next, kept := PruneAt(stored, previous, next, kept, was, n, cells);
      n := n + 1;
    }
    assert kept + was[n..] == kept && was[..n] == was;
  }

  ghost predicate Within(q: seq<StoredTicket>, cells: set<StoredTicket>) {
    forall i :: 0 <= i < |q| ==> q[i] in cells
  }

  lemma PrunedMore(done: seq<StoredTicket>, x: StoredTicket, t: Ticket)
    ensures Stored(Tickets(done + [x]), t) ==
      if Outdone(x.t, t) then Stored(Tickets(done), t) else Stored(Tickets(done), t) + [x.t]
  {
    TicketsMore(done, x);
    assert (Tickets(done) + [x.t])[..|Tickets(done)|] == Tickets(done);
  }
}
