/**
 The lists of packets waiting for acknowledgement and of packets declared lost (sender.c).

 Each path keeps, for each packet number space, a doubly linked list of the packets that
 are out, newest first, and one of those that were lost.  The bytes in transit are counted
 beside the lists and must agree with them.
 */
module PacketLists {
  import opened Collections

  class Packet {
    var previousPacket: Packet?
    var nextPacket: Packet?
    var sendLength: nat
    const isCongestionControlled: bool
    const pc: nat

    constructor (isCongestionControlled: bool, pc: nat)
      ensures this.isCongestionControlled == isCongestionControlled && this.pc == pc
      ensures previousPacket == null && nextPacket == null && sendLength == 0
    {
      this.isCongestionControlled, this.pc := isCongestionControlled, pc;
      previousPacket, nextPacket, sendLength := null, null, 0;
    }
  }

  ghost function Items(q: seq<Packet>): set<Packet> {
    set x | x in q
  }

  /** The packets are chained both ways, in this order. */
  ghost predicate Chained(q: seq<Packet>)
    reads Items(q)`previousPacket, Items(q)`nextPacket
  {
    && Unrepeated(q)
    && (forall i, j :: 0 <= i < j < |q| && j == i + 1 ==> q[i].nextPacket == q[j] && q[j].previousPacket == q[i])
    && (q != [] ==> q[0].previousPacket == null && q[|q| - 1].nextPacket == null)
  }

  function Without<T>(s: seq<T>, i: nat): (r: seq<T>)
    requires i < |s|
    ensures |r| == |s| - 1
  {
    s[..i] + s[i + 1..]
  }

  /** One list: its newest and its oldest packet. */
  class PacketList {
    var newest: Packet?
    var oldest: Packet?
    ghost var q: seq<Packet>

    ghost predicate Valid()
      reads `newest, `oldest, `q, Items(q)`previousPacket, Items(q)`nextPacket
    {
      && Chained(q)
      && (q == [] ==> newest == null && oldest == null)
      && (q != [] ==> newest == q[0] && oldest == q[|q| - 1])
    }

    constructor ()
      ensures Valid() && q == []
    {
      newest, oldest, q := null, null, [];
    }

    method PushNewest(p: Packet)
      requires Valid() && p !in q
      modifies `newest, `oldest, `q, p`previousPacket, p`nextPacket, Items(q)`previousPacket
      ensures Valid() && q == [p] + old(q)
    {
      p.previousPacket := null;
      if newest == null {
        p.nextPacket := null;
        oldest := p;
      } else {
        p.nextPacket := newest;
        newest.previousPacket := p;
      }
      newest := p;
      q := [p] + q;
    }

    method AppendOldest(p: Packet)
      requires Valid() && p !in q
      modifies `newest, `oldest, `q, p`previousPacket, p`nextPacket, Items(q)`nextPacket
      ensures Valid() && q == old(q) + [p]
    {
      p.nextPacket := null;
      if oldest == null {
        newest := p;
        oldest := p;
        p.previousPacket := null;
      } else {
        oldest.nextPacket := p;
        p.previousPacket := oldest;
        oldest := p;
      }
      q := q + [p];
    }

    /** Unlink the packet at place i. */
    method Unlink(p: Packet, ghost i: nat)
      requires Valid() && i < |q| && q[i] == p
      modifies `newest, `oldest, `q, Items(q)`previousPacket, Items(q)`nextPacket
      ensures Valid() && q == Without(old(q), i) && p !in q
    {
      ghost var k := |q| - 1;
      assert p.previousPacket == if i > 0 then q[i - 1] else null;
      assert p.nextPacket == if i < k then q[i + 1] else null;
      assert i > 0 ==> q[i - 1] in Items(q);
      assert i < k ==> q[i + 1] in Items(q);
      if p.previousPacket == null {
        newest := p.nextPacket;
      } else {
        p.previousPacket.nextPacket := p.nextPacket;
      }
      if p.nextPacket == null {
        oldest := p.previousPacket;
      } else {
        p.nextPacket.previousPacket := p.previousPacket;
      }
      ghost var r := Without(q, i);
      assert forall j :: 0 <= j < |r| ==> r[j] == q[if j < i then j else j + 1];
      q := r;
    }
  }

  // ---------- the lists of a path, as values ----------

  /** Each packet is only in the list that is its place. */
  ghost predicate Placed(all: seq<seq<Packet>>, place: map<Packet, nat>) {
    forall i, k :: 0 <= i < |all| && 0 <= k < |all[i]| ==> all[i][k] in place && place[all[i][k]] == i
  }

  lemma PlaceOf(all: seq<seq<Packet>>, place: map<Packet, nat>, i: nat, x: Packet)
    requires Placed(all, place) && i < |all|
    ensures x in all[i] ==> x in place && place[x] == i
  {
  }

  lemma PlacedApart(all: seq<seq<Packet>>, place: map<Packet, nat>, i: nat, j: nat)
    requires Placed(all, place) && i < |all| && j < |all| && i != j
    ensures Items(all[i]) !! Items(all[j])
  {
    forall x | x in Items(all[i]) ensures x !in Items(all[j]) {
      PlaceOf(all, place, i, x);
      PlaceOf(all, place, j, x);
    }
  }

  /** What the packets of a list weigh. */
  ghost function Weight(q: seq<Packet>, w: map<Packet, nat>): nat {
    if q == [] then 0 else (if q[0] in w then w[q[0]] else 0) + Weight(q[1..], w)
  }

  ghost function Total(all: seq<seq<Packet>>, w: map<Packet, nat>): nat {
    if all == [] then 0 else Weight(all[0], w) + Total(all[1..], w)
  }

  lemma {:induction false} WeightWithout(q: seq<Packet>, i: nat, w: map<Packet, nat>)
    requires i < |q| && q[i] in w
    ensures Weight(q, w) == w[q[i]] + Weight(Without(q, i), w)
  {
    if i == 0 {
      assert Without(q, i) == q[1..];
    } else {
      WeightWithout(q[1..], i - 1, w);
      assert Without(q, i)[1..] == Without(q[1..], i - 1);
    }
  }

  lemma {:induction false} WeightOfOthers(q: seq<Packet>, p: Packet, n: nat, w: map<Packet, nat>)
    requires p !in q
    ensures Weight(q, w[p := n]) == Weight(q, w)
  {
    if q != [] {
      WeightOfOthers(q[1..], p, n, w);
    }
  }

  lemma {:induction false} TotalOfOthers(all: seq<seq<Packet>>, p: Packet, n: nat, w: map<Packet, nat>)
    requires forall i :: 0 <= i < |all| ==> p !in all[i]
    ensures Total(all, w[p := n]) == Total(all, w)
  {
    if all != [] {
      WeightOfOthers(all[0], p, n, w);
      TotalOfOthers(all[1..], p, n, w);
    }
  }

  lemma {:induction false} TotalUpdate(all: seq<seq<Packet>>, k: nat, q: seq<Packet>, w: map<Packet, nat>)
    requires k < |all|
    ensures Total(all[k := q], w) == Total(all, w) - Weight(all[k], w) + Weight(q, w)
  {
    if k == 0 {
      assert all[k := q][1..] == all[1..];
    } else {
      TotalUpdate(all[1..], k - 1, q, w);
      assert all[k := q][1..] == all[1..][k - 1 := q];
    }
  }

  /** A list that gains no packet but p, at home there, and nobody else has p. */
  lemma PlacedUpdate(all: seq<seq<Packet>>, place: map<Packet, nat>, k: nat, q: seq<Packet>, p: Packet)
    requires Placed(all, place) && k < |all| && Absent(all, p)
    requires (forall l :: 0 <= l < |q| ==> q[l] == p || q[l] in all[k])
    ensures Placed(all[k := q], place[p := k])
  {
    var b, place' := all[k := q], place[p := k];
    forall i, l | 0 <= i < |b| && 0 <= l < |b[i]| ensures b[i][l] in place' && place'[b[i][l]] == i {
      if i != k {
        assert all[i][l] in all[i];
      } else if q[l] != p {
        var m :| 0 <= m < |all[k]| && all[k][m] == q[l];
      }
    }
  }

  lemma PlacedWithout(all: seq<seq<Packet>>, place: map<Packet, nat>, k: nat, i: nat)
    requires Placed(all, place) && k < |all| && i < |all[k]| && Unrepeated(all[k])
    ensures var now := all[k := Without(all[k], i)]; Placed(now, place) && Absent(now, all[k][i])
  {
    var p, q := all[k][i], Without(all[k], i);
    var now := all[k := q];
    forall j, l | 0 <= j < |now| && 0 <= l < |now[j]|
      ensures now[j][l] in place && place[now[j][l]] == j && now[j][l] != p {
      if j == k {
        assert q[l] == all[k][if l < i then l else l + 1];
      }
    }
  }

  ghost predicate Absent(all: seq<seq<Packet>>, p: Packet) {
    forall i :: 0 <= i < |all| ==> p !in all[i]
  }

  /** Queueing a packet, on values. */
  lemma QueueTotal(all: seq<seq<Packet>>, n: nat, pc: nat, p: Packet, length: nat, w: map<Packet, nat>)
    requires pc < n <= |all| && Absent(all, p)
    ensures Total(all[pc := [p] + all[pc]][..n], w[p := length]) == Total(all[..n], w) + length
  {
    var w' := w[p := length];
    TotalOfOthers(all[..n], p, length, w);
    TotalUpdate(all[..n], pc, [p] + all[pc], w');
    assert all[pc := [p] + all[pc]][..n] == all[..n][pc := [p] + all[pc]];
    assert ([p] + all[pc])[1..] == all[pc];
  }

  /** Dequeueing one. */
  lemma DequeueTotal(all: seq<seq<Packet>>, n: nat, pc: nat, i: nat, w: map<Packet, nat>)
    requires pc < n <= |all| && i < |all[pc]| && all[pc][i] in w
    ensures Total(all[..n], w) == w[all[pc][i]] + Total(all[pc := Without(all[pc], i)][..n], w)
  {
    WeightWithout(all[pc], i, w);
    TotalUpdate(all[..n], pc, Without(all[pc], i), w);
    assert all[pc := Without(all[pc], i)][..n] == all[..n][pc := Without(all[pc], i)];
  }

  // ---------- a path ----------

  /** What the lists hold, what each packet that is out weighs, which list a packet is in, and
      all packets seen. */
  datatype Ledger = Ledger(all: seq<seq<Packet>>, weights: map<Packet, nat>, place: map<Packet, nat>, seen: set<Packet>)

  /** No packet is in two lists, and the count is right; n lists are of packets out. */
  ghost predicate Balanced(g: Ledger, n: nat, count: nat) {
    |g.all| == 2 * n && Placed(g.all, g.place) && count == Total(g.all[..n], g.weights)
  }

  ghost function Queued(g: Ledger, p: Packet, load: nat): Ledger
    requires p.pc < |g.all|
  {
    Ledger(g.all[p.pc := [p] + g.all[p.pc]], g.weights[p := load], g.place[p := p.pc], g.seen + {p})
  }

  lemma QueuedBalanced(g: Ledger, n: nat, count: nat, p: Packet, load: nat)
    requires Balanced(g, n, count) && p.pc < n && Absent(g.all, p)
    ensures Balanced(Queued(g, p, load), n, count + load)
  {
    QueueTotal(g.all, n, p.pc, p, load, g.weights);
    PlacedUpdate(g.all, g.place, p.pc, [p] + g.all[p.pc], p);
  }

  lemma {:induction false} NothingOut(all: seq<seq<Packet>>)
    requires forall i :: 0 <= i < |all| ==> all[i] == []
    ensures Total(all, map[]) == 0
  {
    if all != [] {
      NothingOut(all[1..]);
    }
  }

  ghost function Dropped(g: Ledger, k: nat, i: nat): Ledger
    requires k < |g.all| && i < |g.all[k]|
  {
    g.(all := g.all[k := Without(g.all[k], i)])
  }

  lemma DroppedBalanced(g: Ledger, n: nat, count: nat, k: nat, i: nat)
    requires Balanced(g, n, count) && k < n && i < |g.all[k]| && Unrepeated(g.all[k]) && g.all[k][i] in g.weights
    ensures g.weights[g.all[k][i]] <= count && Absent(Dropped(g, k, i).all, g.all[k][i])
    ensures Balanced(Dropped(g, k, i), n, count - g.weights[g.all[k][i]])
  {
    DequeueTotal(g.all, n, k, i, g.weights);
    PlacedWithout(g.all, g.place, k, i);
  }

  lemma DroppedLostBalanced(g: Ledger, n: nat, count: nat, k: nat, i: nat)
    requires Balanced(g, n, count) && n <= k < 2 * n && i < |g.all[k]| && Unrepeated(g.all[k])
    ensures Balanced(Dropped(g, k, i), n, count) && Absent(Dropped(g, k, i).all, g.all[k][i])
  {
    PlacedWithout(g.all, g.place, k, i);
    assert Dropped(g, k, i).all[..n] == g.all[..n];
  }

  ghost function Lost(g: Ledger, p: Packet, k: nat): Ledger
    requires k < |g.all|
  {
    g.(all := g.all[k := g.all[k] + [p]], place := g.place[p := k])
  }

  lemma LostBalanced(g: Ledger, n: nat, count: nat, p: Packet, k: nat)
    requires Balanced(g, n, count) && n <= k < 2 * n && Absent(g.all, p)
    ensures Balanced(Lost(g, p, k), n, count)
  {
    PlacedUpdate(g.all, g.place, k, g.all[k] + [p], p);
    assert Lost(g, p, k).all[..n] == g.all[..n];
  }

  /** The lists of a path: those of packets out, one for each packet number space, and then as
      many of packets lost. */
  class Path {
    const spaces: nat
    const lists: seq<PacketList>
    var bytesInTransit: nat
    ghost var ledger: Ledger

    /** Every list is well formed and holds what it should. */
    ghost predicate Hold(g: Ledger)
      reads lists`newest, lists`oldest, lists`q, g.seen`previousPacket, g.seen`nextPacket
    {
      && |lists| == |g.all|
      && (forall i, j :: 0 <= i < j < |lists| ==> lists[i] != lists[j])
      && (forall i :: 0 <= i < |lists| ==> lists[i].q == g.all[i] && Items(g.all[i]) <= g.seen && lists[i].Valid())
    }

    /** Only congestion-controlled packets weigh anything. */
    ghost predicate Weighed(g: Ledger)
      requires spaces <= |g.all|
      reads g.seen`sendLength
    {
      forall i, k :: 0 <= i < spaces && 0 <= k < |g.all[i]| ==>
        g.all[i][k] in g.seen && WeighedAs(g.all[i][k], i, g.weights)
    }

    ghost predicate Valid()
      reads this, lists, ledger.seen
    {
      Balanced(ledger, spaces, bytesInTransit) && Hold(ledger) && Weighed(ledger)
    }

    /** All lists start out empty. */
    constructor (spaces: nat)
      ensures Valid() && this.spaces == spaces && bytesInTransit == 0
      ensures forall i :: 0 <= i < |ledger.all| ==> ledger.all[i] == []
    {
      var ls: seq<PacketList> := [];
      ghost var empty: seq<seq<Packet>> := [];
      while |ls| < 2 * spaces
        invariant |ls| == |empty| <= 2 * spaces && forall i :: 0 <= i < |empty| ==> empty[i] == []
        invariant forall i :: 0 <= i < |ls| ==> fresh(ls[i]) && ls[i].Valid() && ls[i].q == []
        invariant forall i, j :: 0 <= i < j < |ls| ==> ls[i] != ls[j]
      {
        var l := new PacketList();
        ls, empty := ls + [l], empty + [[]];
      }
      this.spaces, lists, bytesInTransit := spaces, ls, 0;
      ledger := Ledger(empty, map[], map[], {});
      NothingOut(empty[..spaces]);
    }

    /** Link a packet in at the newest end. */
    method Push(p: Packet, ghost g: Ledger, ghost load: nat)
      requires Hold(g) && Placed(g.all, g.place) && p.pc < |lists| && Absent(g.all, p)
      modifies `ledger, lists`newest, lists`oldest, lists`q, p`previousPacket, p`nextPacket, g.seen`previousPacket
      ensures ledger == Queued(g, p, load) && Hold(ledger)
    {
      var k := p.pc;
      lists[k].PushNewest(p);
      ghost var now := Queued(g, p, load);
      forall i | 0 <= i < |lists|
        ensures lists[i].Valid() && lists[i].q == now.all[i] && Items(now.all[i]) <= now.seen {
        if i != k {
          PlacedApart(g.all, g.place, i, k);
          assert lists[i] != lists[k];
        }
      }
      ledger := now;
    }

    /** Count a packet about to be queued. */
    method Count(p: Packet, length: nat)
      requires spaces <= |ledger.all| && Weighed(ledger) && Absent(ledger.all, p) && p.pc < spaces
      modifies `bytesInTransit, p`sendLength
      ensures bytesInTransit == old(bytesInTransit) + Load(p, length)
      ensures Weighed(Queued(ledger, p, Load(p, length)))
    {
      if p.isCongestionControlled {
        p.sendLength := length;
        bytesInTransit := bytesInTransit + length;
      }
      ghost var g := Queued(ledger, p, Load(p, length));
      forall i, k | 0 <= i < spaces && 0 <= k < |g.all[i]|
        ensures g.all[i][k] in g.seen && WeighedAs(g.all[i][k], i, g.weights) {
        if i != p.pc {
          assert old(WeighedAs(ledger.all[i][k], i, ledger.weights));
        } else if k > 0 {
          assert g.all[i][k] == ledger.all[i][k - 1] && old(WeighedAs(ledger.all[i][k - 1], i, ledger.weights));
        }
      }
    }

    method QueueForRetransmit(p: Packet, length: nat)
      requires Valid() && p.pc < spaces && Absent(ledger.all, p)
      modifies this, p, lists`newest, lists`oldest, lists`q, ledger.seen`previousPacket
      ensures Valid() && ledger == Queued(old(ledger), p, Load(p, length))
      ensures bytesInTransit == old(bytesInTransit) + if p.isCongestionControlled then length else 0
    {
      QueuedBalanced(ledger, spaces, bytesInTransit, p, Load(p, length));
      Count(p, length);
      Push(p, ledger, Load(p, length));
    }

    /** Unlink the packet from the list at k. */
    method Drop(p: Packet, k: nat, ghost i: nat)
      requires Hold(ledger) && Placed(ledger.all, ledger.place) && k < |lists| && i < |ledger.all[k]|
      requires ledger.all[k][i] == p
      modifies `ledger, lists`newest, lists`oldest, lists`q, ledger.seen`previousPacket, ledger.seen`nextPacket
      ensures ledger == Dropped(old(ledger), k, i) && Hold(ledger)
    {
      lists[k].Unlink(p, i);
      ghost var g, now := ledger, Dropped(ledger, k, i);
      forall j | 0 <= j < |lists|
        ensures lists[j].Valid() && lists[j].q == now.all[j] && Items(now.all[j]) <= now.seen {
        if j != k {
          PlacedApart(g.all, g.place, j, k);
          assert lists[j] != lists[k];
        }
      }
      ledger := now;
    }

    /** Link it in at the oldest end of the list at k. */
    method Append(p: Packet, k: nat)
      requires Hold(ledger) && Placed(ledger.all, ledger.place) && k < |lists| && Absent(ledger.all, p)
      requires p in ledger.seen
      modifies `ledger, lists`newest, lists`oldest, lists`q, ledger.seen`previousPacket, ledger.seen`nextPacket
      ensures ledger == Lost(old(ledger), p, k) && Hold(ledger)
    {
      lists[k].AppendOldest(p);
      ghost var g, now := ledger, Lost(ledger, p, k);
      forall j | 0 <= j < |lists|
        ensures lists[j].Valid() && lists[j].q == now.all[j] && Items(now.all[j]) <= now.seen {
        if j != k {
          PlacedApart(g.all, g.place, j, k);
          assert lists[j] != lists[k];
        }
      }
      ledger := now;
    }

    /** Take a packet out of the count.  The subtraction saturates. */
    method Discount(p: Packet)
      modifies `bytesInTransit
      ensures bytesInTransit ==
        if old(bytesInTransit) > Load(p, p.sendLength) then old(bytesInTransit) - Load(p, p.sendLength)
        else if p.isCongestionControlled then 0 else old(bytesInTransit)
    {
      if p.isCongestionControlled {
        if bytesInTransit > p.sendLength {
          bytesInTransit := bytesInTransit - p.sendLength;
        } else {
          bytesInTransit := 0;
        }
      }
    }

    lemma WeighedLess(g: Ledger, k: nat, i: nat)
      requires spaces <= |g.all| && k < |g.all| && i < |g.all[k]| && Weighed(g)
      ensures Weighed(Dropped(g, k, i))
    {
      var now := Dropped(g, k, i);
      forall j, l | 0 <= j < spaces && 0 <= l < |now.all[j]|
        ensures now.all[j][l] in now.seen && WeighedAs(now.all[j][l], j, now.weights) {
        if j != k {
          assert WeighedAs(g.all[j][l], j, g.weights);
        } else {
          var m := if l < i then l else l + 1;
          assert now.all[j][l] == g.all[j][m] && WeighedAs(g.all[j][m], j, g.weights);
        }
      }
    }

    /** A packet that is out is acknowledged, or declared lost. */
    method DequeueRetransmit(p: Packet, shouldFree: bool, ghost i: nat)
      requires Valid() && p.pc < spaces && i < |ledger.all[p.pc]| && ledger.all[p.pc][i] == p
      modifies this, lists`newest, lists`oldest, lists`q, ledger.seen`previousPacket, ledger.seen`nextPacket
      ensures Valid()
      ensures bytesInTransit == old(bytesInTransit) - if p.isCongestionControlled then p.sendLength else 0
      ensures var g := Dropped(old(ledger), p.pc, i); ledger == if shouldFree then g else Lost(g, p, spaces + p.pc)
    {
      TakeOut(p, i);
      if !shouldFree {
        MarkLost(p);
      }
    }

    method TakeOut(p: Packet, ghost i: nat)
      requires Valid() && p.pc < spaces && i < |ledger.all[p.pc]| && ledger.all[p.pc][i] == p
      modifies this, lists`newest, lists`oldest, lists`q, ledger.seen`previousPacket, ledger.seen`nextPacket
      ensures Valid() && ledger == Dropped(old(ledger), p.pc, i) && Absent(ledger.all, p) && p in ledger.seen
      ensures old(bytesInTransit) >= Load(p, p.sendLength)
      ensures bytesInTransit == old(bytesInTransit) - Load(p, p.sendLength)
    {
      ghost var g := ledger;
      assert WeighedAs(p, p.pc, g.weights) && lists[p.pc].Valid();
      DroppedBalanced(g, spaces, bytesInTransit, p.pc, i);
      WeighedLess(g, p.pc, i);
      Drop(p, p.pc, i);
      Discount(p);
    }

    method MarkLost(p: Packet)
      requires Valid() && p.pc < spaces && Absent(ledger.all, p) && p in ledger.seen
      modifies `ledger, lists`newest, lists`oldest, lists`q, ledger.seen`previousPacket, ledger.seen`nextPacket
      ensures Valid() && ledger == Lost(old(ledger), p, spaces + p.pc)
    {
      LostBalanced(ledger, spaces, bytesInTransit, p, spaces + p.pc);
      Append(p, spaces + p.pc);
    }

    /** A lost packet is forgotten. */
    method DequeueRetransmitted(p: Packet, ghost i: nat)
      requires Valid() && p.pc < spaces && i < |ledger.all[spaces + p.pc]| && ledger.all[spaces + p.pc][i] == p
      modifies this, lists`newest, lists`oldest, lists`q, ledger.seen`previousPacket, ledger.seen`nextPacket
      ensures Valid() && ledger == Dropped(old(ledger), spaces + p.pc, i) && bytesInTransit == old(bytesInTransit)
    {
      var k := spaces + p.pc;
      assert lists[k].Valid();
      DroppedLostBalanced(ledger, spaces, bytesInTransit, k, i);
      WeighedLess(ledger, k, i);
      Drop(p, k, i);
    }
  }

  /** What a packet adds to the bytes in transit. */
  function Load(p: Packet, length: nat): nat {
    if p.isCongestionControlled then length else 0
  }

  ghost predicate WeighedAs(p: Packet, pc: nat, w: map<Packet, nat>)
    reads p`sendLength
  {
    p.pc == pc && p in w && w[p] == Load(p, p.sendLength)
  }
}
