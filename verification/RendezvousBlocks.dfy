/**
 The buffer of a received message (src/ibverbs_van.h): the application gets segments that point into
 it, and it is freed when the last of them is dropped, and not before.
 */
module RendezvousBlocks {
  import opened Options
  import opened Rendezvous

  /** How often the application drops a segment of the buffer at p, from event i up to event k. */
  function Drops(es: seq<Event>, p: Place, i: nat, k: nat): nat
    requires i <= k <= |es|
  {
    if i == k then 0 else Drops(es, p, i, k - 1) + if es[k - 1] == Release(p) then 1 else 0
  }

  // ---------- one event ----------

  /** The buffer at p is handed out, with n segments that are not dropped, and the bytes of the message. */
  ghost predicate Shared(s: State, p: Place, n: nat, bytes: seq<Byte>) {
    p in s.blocks && s.blocks[p] == n && p in s.mem && s.mem[p] == bytes
  }

  lemma RecvShares(s: State, p: Place)
    requires Passes(s, Recv(p)) && EntriesFit(s)
    ensures var t := Apply(s, Recv(p));
      && |t.delivered| == |s.delivered| + 1
      && var d := t.delivered[|s.delivered|];
      && d.id < |s.sent| && |d.data| == |s.sent[d.id].data| && s.mem[p] == Bytes(s.sent[d.id])
      && (d.data != [] ==> Shared(t, p, |d.data|, Bytes(s.sent[d.id])))
      && (d.data == [] ==> p !in t.mem)
  {
    assert QueuedFits(s, p);
    ConcatLength(s.sent[s.queue[p].id].data);
  }

  lemma OwnedByBlock(s: State, p: Place)
    requires Owners(s) && p in s.blocks
    ensures p in s.mem && s.owner[p] == OfBlock
  {
  }

  lemma WriteElsewhere(s: State, c: Context, rx: Context, p: Place)
    requires Passes(s, LandWrite(c, rx)) && Ownings(s) && CarrierFits(s, c, s.held[c])
    requires p in s.owner && s.owner[p] == OfBlock
    ensures s.held[c].place != p
  {
    assert s.owner[s.table[Slot(c.peer, s.held[c].idx)].buffer] == OfSlot(Slot(c.peer, s.held[c].idx));
  }

  lemma FreedElsewhere(s: State, c: Context, p: Place)
    requires Passes(s, Complete(c)) && Ownings(s) && p in s.owner && s.owner[p] == OfBlock
    ensures s.held[c].WriteSent? ==> s.buffers[s.held[c].h].inlineBuf != p
  {
  }

  lemma RecvElsewhere(s: State, q: Place, p: Place)
    requires Passes(s, Recv(q)) && Ownings(s) && p in s.owner && s.owner[p] == OfBlock
    ensures q != p
  {
  }

  /** The place of new memory, of a WRITE, of memory that is freed and of a message received is another. */
  ghost predicate Elsewhere(s: State, e: Event, p: Place)
    requires Passes(s, e)
  {
    match e
    case LandWrite(c, rx) => s.held[c].place != p
    case Complete(c) => s.held[c].WriteSent? ==> s.buffers[s.held[c].h].inlineBuf != p
    case Recv(q) => q != p
    case Release(q) => q != p
    case _ => true
  }

  lemma IsElsewhere(s: State, e: Event, p: Place)
    requires Passes(s, e) && Owners(s) && CarriersFit(s) && p in s.blocks && e != Release(p)
    ensures Elsewhere(s, e, p)
  {
    OwnedByBlock(s, p);
    match e
    case LandWrite(c, rx) =>
      assert CarrierFits(s, c, s.held[c]);
      WriteElsewhere(s, c, rx, p);
    case Complete(c) => FreedElsewhere(s, c, p);
    case Recv(q) => RecvElsewhere(s, q, p);
    case _ =>
  }

  /** Nothing but a drop of one of its segments touches it. */
  lemma SharedStays(s: State, e: Event, p: Place, n: nat, bytes: seq<Byte>)
    requires Passes(s, e) && Elsewhere(s, e, p) && Shared(s, p, n, bytes)
    ensures Shared(Apply(s, e), p, n, bytes)
  {
  }

  /** The last drop frees it, and no other does. */
  lemma DropShared(s: State, p: Place, n: nat, bytes: seq<Byte>)
    requires Passes(s, Release(p)) && Shared(s, p, n, bytes)
    ensures n > 0
    ensures n > 1 ==> Shared(Apply(s, Release(p)), p, n - 1, bytes)
    ensures n == 1 ==> p !in Apply(s, Release(p)).mem && p !in Apply(s, Release(p)).blocks
  {
  }

  /** What one event makes of it. */
  lemma StepShared(s: State, e: Event, t: State, p: Place, n: nat, bytes: seq<Byte>)
    requires Inv(s) && Passes(s, e) && Follows(s, e, t) && Shared(s, p, n, bytes)
    ensures e != Release(p) ==> Shared(t, p, n, bytes)
    ensures e == Release(p) ==> n > 0
    ensures e == Release(p) && n > 1 ==> Shared(t, p, n - 1, bytes)
    ensures e == Release(p) && n == 1 ==> p !in t.mem && p !in t.blocks
  {
    if e == Release(p) {
      DropShared(s, p, n, bytes);
    } else {
      IsElsewhere(s, e, p);
      SharedStays(s, e, p, n, bytes);
    }
  }

  /** Only a delivery hands a buffer out. */
  lemma HandedOut(s: State, e: Event, p: Place)
    requires Passes(s, e) && p !in s.blocks && p in Apply(s, e).blocks
    ensures e == Recv(p)
  {
  }

  // ---------- one buffer ----------

  /** What there is of the buffer at p: segments that are left, and bytes. */
  datatype View = View(left: nat, bytes: seq<Byte>)

  ghost function ViewOf(s: State, p: Place): View {
    if p in s.blocks && p in s.mem then View(s.blocks[p], s.mem[p]) else View(0, [])
  }

  /** What the application does with it: get n segments, drop one, or nothing. */
  datatype Use = Get(n: nat, bytes: seq<Byte>) | Drop | Nothing

  ghost predicate Turn(v: View, u: Use, v': View) {
    match u
    case Get(n, bytes) => v.left == 0 && v'.left == n && (n > 0 ==> v'.bytes == bytes)
    case Drop => v.left > 0 && v'.left == v.left - 1 && (v'.left > 0 ==> v'.bytes == v.bytes)
    case Nothing => v'.left == v.left && (v.left > 0 ==> v'.bytes == v.bytes)
  }

  ghost predicate Turns(vs: seq<View>, us: seq<Use>) {
    |vs| == |us| + 1 && vs[0].left == 0 && forall j :: 0 <= j < |us| ==> Turn(vs[j], us[j], vs[j + 1])
  }

  function DropsOf(us: seq<Use>, i: nat, k: nat): nat
    requires i <= k <= |us|
  {
    if i == k then 0 else DropsOf(us, i, k - 1) + if us[k - 1].Drop? then 1 else 0
  }

  lemma {:induction false} LeftUntilDropped(vs: seq<View>, us: seq<Use>, i: nat, k: nat)
    requires Turns(vs, us) && i < k <= |us| && us[i].Get? && DropsOf(us, i + 1, k) < us[i].n
    ensures vs[k].left == us[i].n - DropsOf(us, i + 1, k) && vs[k].bytes == us[i].bytes
  {
    assert Turn(vs[k - 1], us[k - 1], vs[k - 1 + 1]);
    if k > i + 1 {
      LeftUntilDropped(vs, us, i, k - 1);
    }
  }

  lemma {:induction false} WasGot(vs: seq<View>, us: seq<Use>, k: nat) returns (i: nat)
    requires Turns(vs, us) && k <= |us| && vs[k].left > 0
    ensures i < k && us[i].Get? && DropsOf(us, i + 1, k) < us[i].n
  {
    assert k > 0 && Turn(vs[k - 1], us[k - 1], vs[k - 1 + 1]);
    if us[k - 1].Get? {
      i := k - 1;
    } else {
      i := WasGot(vs, us, k - 1);
      LeftUntilDropped(vs, us, i, k - 1);
    }
  }

  // ---------- every run ----------

  /** What event e means for the buffer at p. */
  ghost function UseOf(s: State, e: Event, t: State, p: Place): Use {
    if e == Release(p) then Drop
    else if e == Recv(p) && |t.delivered| == |s.delivered| + 1 && t.delivered[|s.delivered|].id < |s.sent| then
      var d := t.delivered[|s.delivered|];
      Get(|d.data|, Bytes(s.sent[d.id]))
    else Nothing
  }

  lemma ViewShared(s: State, p: Place, n: nat, bytes: seq<Byte>)
    requires Shared(s, p, n, bytes)
    ensures ViewOf(s, p) == View(n, bytes)
  {
  }

  lemma NotShared(s: State, p: Place)
    requires p in s.queue && Ownings(s)
    ensures ViewOf(s, p).left == 0
  {
    assert s.owner[p] == OfQueue;
  }

  lemma RecvTurns(s: State, p: Place)
    requires EntriesFit(s) && Ownings(s) && Passes(s, Recv(p))
    ensures var t := Apply(s, Recv(p)); UseOf(s, Recv(p), t, p).Get?
    ensures var t := Apply(s, Recv(p)); Turn(ViewOf(s, p), UseOf(s, Recv(p), t, p), ViewOf(t, p))
  {
    var t := Apply(s, Recv(p));
    NotShared(s, p);
    RecvShares(s, p);
    var d := t.delivered[|s.delivered|];
    if d.data != [] {
      ViewShared(t, p, |d.data|, Bytes(s.sent[d.id]));
    }
  }

  lemma EventTurns(s: State, e: Event, t: State, p: Place)
    requires Inv(s) && Passes(s, e) && t == Apply(s, e)
    ensures Turn(ViewOf(s, p), UseOf(s, e, t, p), ViewOf(t, p))
  {
    if e == Recv(p) {
      RecvTurns(s, p);
    } else if p in s.blocks {
      OwnedByBlock(s, p);
      StepShared(s, e, t, p, s.blocks[p], s.mem[p]);
    } else if p in t.blocks {
      HandedOut(s, e, p);
    }
  }

  ghost function Views(ss: seq<State>, p: Place, k: nat): (vs: seq<View>)
    requires k < |ss|
    ensures |vs| == k + 1 && forall j :: 0 <= j <= k ==> vs[j] == ViewOf(ss[j], p)
  {
    if k == 0 then [ViewOf(ss[0], p)] else Views(ss, p, k - 1) + [ViewOf(ss[k], p)]
  }

  ghost function Uses(ss: seq<State>, es: seq<Event>, p: Place, k: nat): (us: seq<Use>)
    requires |ss| == |es| + 1 && k <= |es|
    ensures |us| == k && forall j :: 0 <= j < k ==> us[j] == UseOf(ss[j], es[j], ss[j + 1], p)
  {
    if k == 0 then [] else Uses(ss, es, p, k - 1) + [UseOf(ss[k - 1], es[k - 1], ss[k], p)]
  }

  ghost predicate Passing(ss: seq<State>, es: seq<Event>, all: set<Context>, slots: set<Slot>, k: nat) {
    Run(ss, es, all, slots) && k <= |es| && forall j :: 0 <= j < k ==> Passes(ss[j], es[j])
  }

  lemma TurnAt(ss: seq<State>, es: seq<Event>, all: set<Context>, slots: set<Slot>, k: nat, j: nat, p: Place)
    requires Passing(ss, es, all, slots, k) && j < k
    ensures Turn(ViewOf(ss[j], p), UseOf(ss[j], es[j], ss[j + 1], p), ViewOf(ss[j + 1], p))
    ensures UseOf(ss[j], es[j], ss[j + 1], p).Get? <==> es[j] == Recv(p)
  {
    assert Follows(ss[j], es[j], ss[j + 1]);
    RunsAreSafe(ss, es, all, slots, j);
    EventTurns(ss[j], es[j], ss[j + 1], p);
    if es[j] == Recv(p) {
      RecvTurns(ss[j], p);
    }
  }

  /** The history of one buffer. */
  ghost predicate History(vs: seq<View>, us: seq<Use>, ss: seq<State>, es: seq<Event>, p: Place) {
    && |ss| == |es| + 1 && |us| <= |es| && Turns(vs, us)
    && (forall j :: 0 <= j <= |us| ==> vs[j] == ViewOf(ss[j], p))
    && (forall j :: 0 <= j < |us| ==> us[j] == UseOf(ss[j], es[j], ss[j + 1], p))
    && (forall j :: 0 <= j < |us| ==> (us[j].Get? <==> es[j] == Recv(p)))
  }

  lemma RunTurns(ss: seq<State>, es: seq<Event>, all: set<Context>, slots: set<Slot>, k: nat, p: Place)
      returns (vs: seq<View>, us: seq<Use>)
    requires Passing(ss, es, all, slots, k)
    ensures |us| == k && History(vs, us, ss, es, p)
  {
    vs, us := Views(ss, p, k), Uses(ss, es, p, k);
    forall j | 0 <= j < k ensures Turn(vs[j], us[j], vs[j + 1]) && (us[j].Get? <==> es[j] == Recv(p)) {
      TurnAt(ss, es, all, slots, k, j, p);
    }
  }

  lemma {:induction false} SameDrops(vs: seq<View>, us: seq<Use>, ss: seq<State>, es: seq<Event>, p: Place, i: nat,
                                     k: nat)
    requires History(vs, us, ss, es, p) && i <= k <= |us|
    ensures DropsOf(us, i, k) == Drops(es, p, i, k)
  {
    if i < k {
      SameDrops(vs, us, ss, es, p, i, k - 1);
      assert us[k - 1] == UseOf(ss[k - 1], es[k - 1], ss[k - 1 + 1], p);
    }
  }

  /** Event i delivered a message out of p. */
  ghost predicate Delivers(ss: seq<State>, es: seq<Event>, i: nat, p: Place, d: Delivery)
    requires |ss| == |es| + 1
  {
    && i < |es| && es[i] == Recv(p) && |ss[i + 1].delivered| == |ss[i].delivered| + 1
    && ss[i + 1].delivered[|ss[i].delivered|] == d && d.id < |ss[i].sent|
  }

  lemma KeptInHistory(vs: seq<View>, us: seq<Use>, ss: seq<State>, es: seq<Event>, i: nat, k: nat, p: Place,
                      d: Delivery)
    requires History(vs, us, ss, es, p) && i < k <= |us| && Delivers(ss, es, i, p, d)
    requires Drops(es, p, i + 1, k) < |d.data|
    ensures Shared(ss[k], p, |d.data| - Drops(es, p, i + 1, k), Bytes(ss[i].sent[d.id]))
  {
    SameDrops(vs, us, ss, es, p, i + 1, k);
    LeftUntilDropped(vs, us, i, k);
  }

  /** After a delivery, as long as some segment has not been dropped, the buffer is there with the bytes of
      the message, and the counter is the number of segments that are left. */
  lemma KeptForTheRest(ss: seq<State>, es: seq<Event>, all: set<Context>, slots: set<Slot>, i: nat, k: nat, p: Place,
                       d: Delivery)
    requires Passing(ss, es, all, slots, k) && i < k && Delivers(ss, es, i, p, d) && Drops(es, p, i + 1, k) < |d.data|
    ensures Shared(ss[k], p, |d.data| - Drops(es, p, i + 1, k), Bytes(ss[i].sent[d.id]))
  {
    var vs, us := RunTurns(ss, es, all, slots, k, p);
    KeptInHistory(vs, us, ss, es, i, k, p, d);
  }

  /** Whatever is handed out was delivered, and not all its segments have been dropped since. */
  lemma WasDelivered(vs: seq<View>, us: seq<Use>, ss: seq<State>, es: seq<Event>, k: nat, p: Place)
      returns (i: nat, d: Delivery)
    requires History(vs, us, ss, es, p) && k <= |us| && ViewOf(ss[k], p).left > 0
    ensures i < k && Delivers(ss, es, i, p, d) && Drops(es, p, i + 1, k) < |d.data|
  {
    i := WasGot(vs, us, k);
    SameDrops(vs, us, ss, es, p, i + 1, k);
    d := ss[i + 1].delivered[|ss[i].delivered|];
  }

  /** Over every run, the drop that frees a buffer is exactly that of the last segment of the message that was
      delivered from it; until then it holds the bytes of the message. */
  lemma FreedByLastDrop(ss: seq<State>, es: seq<Event>, all: set<Context>, slots: set<Slot>, k: nat, p: Place)
      returns (i: nat, d: Delivery)
    requires Passing(ss, es, all, slots, k + 1) && es[k] == Release(p)
    ensures i < k && Delivers(ss, es, i, p, d) && p in ss[k].mem && ss[k].mem[p] == Bytes(ss[i].sent[d.id])
    ensures Drops(es, p, i + 1, k + 1) <= |d.data|
    ensures p !in ss[k + 1].mem <==> Drops(es, p, i + 1, k + 1) == |d.data|
  {
    var n, bytes := DropAt(ss, es, all, slots, k, p);
    var vs, us := RunTurns(ss, es, all, slots, k + 1, p);
    i, d := LastDrop(vs, us, ss, es, k, p, n, bytes);
  }

  lemma LastDrop(vs: seq<View>, us: seq<Use>, ss: seq<State>, es: seq<Event>, k: nat, p: Place, n: nat,
                 bytes: seq<Byte>)
      returns (i: nat, d: Delivery)
    requires History(vs, us, ss, es, p) && k + 1 == |us| && es[k] == Release(p) && n > 0 && Shared(ss[k], p, n, bytes)
    ensures i < k && Delivers(ss, es, i, p, d) && bytes == Bytes(ss[i].sent[d.id])
    ensures Drops(es, p, i + 1, k + 1) == |d.data| - (n - 1)
  {
    ViewShared(ss[k], p, n, bytes);
    i, d := WasDelivered(vs, us, ss, es, k, p);
    KeptInHistory(vs, us, ss, es, i, k, p, d);
  }

  lemma DropAt(ss: seq<State>, es: seq<Event>, all: set<Context>, slots: set<Slot>, k: nat, p: Place)
      returns (n: nat, bytes: seq<Byte>)
    requires Passing(ss, es, all, slots, k + 1) && es[k] == Release(p)
    ensures n > 0 && Shared(ss[k], p, n, bytes) && (p !in ss[k + 1].mem <==> n == 1)
  {
    assert Follows(ss[k], es[k], ss[k + 1]);
    n, bytes := ss[k].blocks[p], ss[k].mem[p];
    DropShared(ss[k], p, n, bytes);
  }
}
