/**
 Handling in order does not get stuck either (src/ibverbs_van.h): a START that is next finds a
 reply context, so that what a node has received goes on one by one.
 */
module RendezvousTurns {
  import opened Collections
  import opened Options
  import opened Rendezvous
  import opened RendezvousDepth
  import opened RendezvousOrder

  // ---------- a REPLY goes where its message came from ----------

  ghost predicate ReplyFits(s: State, c: Context) {
    c in s.held && s.held[c].Reply? ==> s.held[c].h in s.buffers && s.buffers[s.held[c].h].reserved.node == c.peer
  }

  ghost predicate RepliesFit(s: State) {
    forall c :: ReplyFits(s, c)
  }

  lemma AnswerFits(s: State, x: Context, r: Context, p: Place, idx: nat, junk: seq<Byte>)
    requires Can(s, HandleStart(x, r, p, idx, junk)) && CarriersFit(s) && BuffersFit(s)
    ensures ReplyFits(ApplyHandleStart(s, x, r, p, idx, junk), r)
  {
    assert CarrierFits(s, x, s.held[x]) && BufferFits(s, s.buffers[s.held[x].h]);
  }

  /** A REPLY on its way was so before, unless a START has just been handled. */
  lemma ReplyCame(s: State, e: Event, d: Context)
    requires Passes(s, e) && d in Apply(s, e).held && Apply(s, e).held[d].Reply? && !(e.HandleStart? && e.r == d)
    ensures d in s.held && s.held[d] == Apply(s, e).held[d]
  {
  }

  /** Nothing but the completion of its WRITE takes a message buffer away. */
  lemma BufferStays(s: State, e: Event, h: Handle)
    requires Passes(s, e) && h in s.buffers && !(e.Complete? && s.held[e.c] == WriteSent(h))
    ensures h in Apply(s, e).buffers && Apply(s, e).buffers[h] == s.buffers[h]
  {
  }

  lemma OldReplyKeeps(s: State, e: Event, d: Context)
    requires Passes(s, e) && Handles(s.held, s.buffers, s.at) && ReplyFits(s, d) && !(e.HandleStart? && e.r == d)
    ensures ReplyFits(Apply(s, e), d)
  {
    if d in Apply(s, e).held && Apply(s, e).held[d].Reply? {
      ReplyCame(s, e, d);
      var h := HandleOf(s.held[d]).value;
      assert s.at[h] == d;
      assert HandleOf(WriteSent(h)) == Some(h);
      BufferStays(s, e, h);
    }
  }

  lemma ReplyKeeps(s: State, e: Event, d: Context)
    requires Passes(s, e) && Handles(s.held, s.buffers, s.at) && CarriersFit(s) && BuffersFit(s) && ReplyFits(s, d)
    ensures ReplyFits(Apply(s, e), d)
  {
    if e.HandleStart? && e.r == d {
      AnswerFits(s, e.rx, d, e.place, e.idx, e.junk);
    } else {
      OldReplyKeeps(s, e, d);
    }
  }

  lemma {:induction false} RunsReply(ss: seq<State>, es: seq<Event>, all: set<Context>, slots: set<Slot>, k: nat)
    requires Run(ss, es, all, slots) && k <= |es| && forall i :: 0 <= i < k ==> Passes(ss[i], es[i])
    ensures RepliesFit(ss[k])
  {
    if k > 0 {
      RunsReply(ss, es, all, slots, k - 1);
      RunsInOrder(ss, es, all, slots, k - 1);
      assert Follows(ss[k - 1], es[k - 1], ss[k - 1 + 1]);
      forall d ensures ReplyFits(ss[k], d) {
        ReplyKeeps(ss[k - 1], es[k - 1], d);
      }
    }
  }

  // ---------- what is next goes on ----------

  /** At least as many reply contexts at one end as write contexts at the other. */
  ghost predicate Answerable(all: set<Context>) {
    forall c :: c in all ==> |Of(all, WriteKind, c.peer, c.node)| <= |Of(all, ReplyKind, c.node, c.peer)|
  }

  /** In turn, only a send is possible. */
  ghost predicate Stuck(s: State, log: Log) {
    forall e :: Can(s, e) && InTurn(s, log, e) ==> e.Send?
  }

  lemma NotNow(s: State, log: Log, e: Event)
    requires Stuck(s, log) && !e.Send? && InTurn(s, log, e)
    ensures !Can(s, e)
  {
  }

  lemma StillReply(s: State, log: Log, r: Context)
    requires Kinds(s.held) && Stuck(s, log) && r in s.held && r.kind.ReplyKind?
    ensures s.held[r].Reply?
  {
    NotNow(s, log, Complete(r));
    assert KindFits(s.held[r], r.kind);
  }

  /** A REPLY on its way, whose message has the write context w. */
  ghost predicate Holds(s: State, r: Context, w: Context) {
    && r in s.held && s.held[r].Reply? && s.held[r].h in s.buffers && s.held[r].h in s.at && s.at[s.held[r].h] == r
    && s.buffers[s.held[r].h].reserved == w && w in s.held && s.held[w] == Reserved(s.held[r].h)
  }

  lemma ReplyReserves(s: State, r: Context, w: Context)
    requires Inv(s) && Kinds(s.held) && ReplyFits(s, r) && r in s.held && s.held[r].Reply?
    requires w == s.buffers[s.held[r].h].reserved
    ensures Holds(s, r, w) && w in Of(s.all, WriteKind, r.peer, r.node)
  {
    assert CarrierFits(s, r, s.held[r]);
    var h := HandleOf(s.held[r]).value;
    assert s.at[h] == r && BeforeWrite(s.held[s.at[h]]);
    assert BufferFits(s, s.buffers[h]) && KindFits(s.held[w], w.kind);
    assert EntryFits(s, s.table[Slot(r.node, s.held[r].idx)], r.node);
  }

  lemma CountReplies(s: State, rx: Context, xs: set<Context>, f: map<Context, Context>, ws: set<Context>)
    requires Parked(s, rx) && xs <= f.Keys && s.buffers[s.held[rx].h].reserved in ws
    requires forall r :: r in xs ==> Holds(s, r, f[r]) && f[r] in ws
    ensures |xs| < |ws|
  {
    Injects(xs, ws - {s.buffers[s.held[rx].h].reserved}, f);
  }

  lemma HeldReplies(s: State, rx: Context, xs: set<Context>)
    requires Inv(s) && Kinds(s.held) && RepliesFit(s) && rx in s.held && s.held[rx].GotStart?
    requires forall r :: r in xs ==> r in s.held && s.held[r].Reply? && r.node == rx.node && r.peer == rx.peer
    ensures |xs| < |Of(s.all, WriteKind, rx.peer, rx.node)|
  {
    IsParked(s, rx);
    ParkedPlace(s, rx);
    forall r | r in xs ensures s.held[r].h in s.buffers {
      assert ReplyFits(s, r);
    }
    var f := map r | r in xs :: s.buffers[s.held[r].h].reserved;
    forall r | r in xs ensures Holds(s, r, f[r]) && f[r] in Of(s.all, WriteKind, rx.peer, rx.node) {
      assert ReplyFits(s, r);
      ReplyReserves(s, r, f[r]);
    }
    CountReplies(s, rx, xs, f, Of(s.all, WriteKind, rx.peer, rx.node));
  }

  lemma ReplyFound(s: State, log: Log, rx: Context) returns (r: Context)
    requires Inv(s) && Kinds(s.held) && RepliesFit(s) && Stuck(s, log) && rx in s.held && s.held[rx].GotStart?
    requires Answerable(s.all)
    ensures FreeContext(s, r, ReplyKind, rx.node, rx.peer)
  {
    var rs := Of(s.all, ReplyKind, rx.node, rx.peer);
    var xs := set r | r in rs && r in s.held;
    forall r | r in xs ensures s.held[r].Reply? {
      StillReply(s, log, r);
    }
    HeldReplies(s, rx, xs);
    assert rx in s.all;
    r := SomeOther(rs, xs);
    assert r in s.free + s.held.Keys;
  }

  lemma ReplyNotNext(s: State, log: Log, rx: Context)
    requires Stuck(s, log) && rx in s.held && Oldest(s.held, log, rx)
    ensures !s.held[rx].GotReply? && !s.held[rx].GotWrite?
  {
    NotNow(s, log, HandleReply(rx));
    NotNow(s, log, HandleWrite(rx));
  }

  lemma StartNotNext(s: State, log: Log, rx: Context, r: Context)
    requires Stuck(s, log) && rx in s.held && Oldest(s.held, log, rx) && FreeContext(s, r, ReplyKind, rx.node, rx.peer)
    ensures !s.held[rx].GotStart?
  {
    var p := FreshPlace(s.mem, rx.node);
    var idx := FreeIndex(s, rx.node);
    var n := if s.held[rx].GotStart? then s.held[rx].metaLen + Sum(s.held[rx].lens) else 0;
    NotNow(s, log, HandleStart(rx, r, p, idx, seq(n, _ => 0)));
  }

  /** So nothing that has been received can be next. */
  lemma NoneNext(s: State, log: Log, rx: Context)
    requires Inv(s) && Kinds(s.held) && RepliesFit(s) && Answerable(s.all) && rx in s.held && Got(s.held[rx])
    requires Oldest(s.held, log, rx)
    ensures !Stuck(s, log)
  {
    if Stuck(s, log) {
      ReplyNotNext(s, log, rx);
      var r := ReplyFound(s, log, rx);
      StartNotNext(s, log, rx, r);
    }
  }

  lemma {:induction false} SomeOldest(xs: set<Context>, stamp: map<Context, nat>) returns (x: Context)
    requires xs != {} && xs <= stamp.Keys
    ensures x in xs && forall y :: y in xs ==> stamp[x] <= stamp[y]
    decreases |xs|
  {
    x := SomeElement(xs);
    var rest := xs - {x};
    if rest != {} {
      var y := SomeOldest(rest, stamp);
      if stamp[y] < stamp[x] {
        x := y;
      }
      forall z | z in xs ensures stamp[x] <= stamp[z] {
        assert z !in rest ==> z in xs - rest;
      }
    }
  }

  lemma NothingReceived(s: State, log: Log, k: nat, c: Context)
    requires Ordered(s, log, k) && RepliesFit(s) && Answerable(s.all) && Stuck(s, log) && c in s.held
    ensures !Got(s.held[c])
  {
    if Got(s.held[c]) {
      var xs := set y | y in s.held && Got(s.held[y]) && y.node == c.node;
      assert c in xs;
      var rx := SomeOldest(xs, log.stamp);
      assert Oldest(s.held, log, rx);
      NoneNext(s, log, rx);
    }
  }

  /** Where only a send is possible in turn, only a send is possible at all. */
  lemma TurnsSuffice(s: State, log: Log, k: nat)
    requires Ordered(s, log, k) && RepliesFit(s) && Answerable(s.all) && Stuck(s, log)
    ensures OnlySends(s)
  {
    forall e | Can(s, e) ensures e.Send? {
      if OutOf(e).Some? {
        NothingReceived(s, log, k, OutOf(e).value);
      }
      assert InTurn(s, log, e);
    }
  }

  /** A run in turn that cannot go on without another send has delivered everything. */
  lemma TurnsDeliver(ss: seq<State>, es: seq<Event>, all: set<Context>, slots: set<Slot>)
    requires Run(ss, es, all, slots) && Polled(ss, es) && Deep(all) && Answerable(all)
    requires (forall i :: 0 <= i < |es| ==> Passes(ss[i], es[i])) && Stuck(ss[|es|], LogAt(ss, es, |es|))
    ensures AtRest(ss[|es|]) && ss[|es|].all == all && ss[|es|].allSlots == slots
  {
    RunsOrdered(ss, es, all, slots, |es|);
    RunsReply(ss, es, all, slots, |es|);
    TurnsSuffice(ss[|es|], LogAt(ss, es, |es|), |es|);
    RunsDeliver(ss, es, all, slots);
  }
}
