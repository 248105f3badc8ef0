/**
 Reserving room for the frames of plugins (picoquic_frame_fair_reserve in sender.c).

 Two rounds over the plugins, starting from the one whose turn it is: first the blocks that
 count against a plugin's rate, then the others.  Whole blocks move, in order, while the
 total stays below the budget.
 */
module FairReserve {
  import opened PluginSlots

  datatype Block = Block(frames: seq<Slot>, totalBytes: nat, isCongestionControlled: bool)

  datatype Plugin = Plugin(blockQueueCc: seq<Block>, blockQueueNonCc: seq<Block>, bytesInFlight: nat,
                           rateUnlimited: bool)

  /** How many blocks from the front may go: while the total stays below the budget, and not
      those under congestion control when the window is full. */
  function Greedy(q: seq<Block>, used: nat, budget: nat, windowOpen: bool): (n: nat)
    ensures n <= |q|
  {
    if q != [] && used + q[0].totalBytes < budget && (!q[0].isCongestionControlled || windowOpen)
    then 1 + Greedy(q[1..], used + q[0].totalBytes, budget, windowOpen)
    else 0
  }

  function Total(q: seq<Block>): nat {
    if q == [] then 0 else q[0].totalBytes + Total(q[1..])
  }

  /** The frames of some blocks, in order, as slots of a plugin. */
  function SlotsOf(q: seq<Block>, plugin: nat): seq<Slot> {
    if q == [] then [] else Tagged(q[0].frames, plugin) + SlotsOf(q[1..], plugin)
  }

  /** Reserved frames remember their plugin. */
  function Tagged(frames: seq<Slot>, plugin: nat): seq<Slot> {
    if frames == [] then []
    else Tagged(frames[..|frames| - 1], plugin) + [frames[|frames| - 1].(plugin := plugin)]
  }

  /** In order, and each as it was otherwise. */
  lemma {:induction false} TaggedAt(frames: seq<Slot>, plugin: nat, i: nat)
    requires i < |frames|
    ensures |Tagged(frames, plugin)| == |frames| && Tagged(frames, plugin)[i] == frames[i].(plugin := plugin)
  {
    var k := |frames| - 1;
    if k > 0 {
      TaggedAt(frames[..k], plugin, if i < k then i else 0);
    }
  }

  /** The greedy total is zero or below the budget, and no further block would have fitted. */
  lemma {:induction false} GreedyFits(q: seq<Block>, used: nat, budget: nat, windowOpen: bool)
    ensures var n := Greedy(q, used, budget, windowOpen);
      && (n == 0 || used + Total(q[..n]) < budget)
      && (n < |q| ==> used + Total(q[..n]) + q[n].totalBytes >= budget || (q[n].isCongestionControlled && !windowOpen))
  {
    var n := Greedy(q, used, budget, windowOpen);
    if n > 0 {
      GreedyFits(q[1..], used + q[0].totalBytes, budget, windowOpen);
      assert q[..n][1..] == q[1..][..n - 1];
      if n == 1 {
        assert Total(q[..1]) == q[0].totalBytes + Total([]);
      }
    }
  }

  lemma {:induction false} TotalConcat(a: seq<Block>, b: seq<Block>)
    ensures Total(a + b) == Total(a) + Total(b)
  {
    if a == [] {
      assert a + b == b;
    } else {
      TotalConcat(a[1..], b);
      assert (a + b)[1..] == a[1..] + b;
    }
  }

  lemma {:induction false} SlotsConcat(a: seq<Block>, b: seq<Block>, plugin: nat)
    ensures SlotsOf(a + b, plugin) == SlotsOf(a, plugin) + SlotsOf(b, plugin)
  {
    if a == [] {
      assert a + b == b;
    } else {
      SlotsConcat(a[1..], b, plugin);
      assert (a + b)[1..] == a[1..] + b;
      Associative(Tagged(a[0].frames, plugin), SlotsOf(a[1..], plugin), SlotsOf(b, plugin));
    }
  }

  lemma Associative(a: seq<Slot>, b: seq<Slot>, c: seq<Slot>)
    ensures a + b + c == a + (b + c)
  {
  }

  method EnqueueFrames(frames: seq<Slot>, plugin: nat, reserved: seq<Slot>) returns (reserved': seq<Slot>)
    ensures reserved' == reserved + Tagged(frames, plugin)
  {
    reserved' := reserved;
    var i := 0;
    while i < |frames|
      invariant i <= |frames| && reserved' == reserved + Tagged(frames[..i], plugin)
    {
      assert frames[..i + 1][..i] == frames[..i];
      reserved' := reserved' + [frames[i].(plugin := plugin)];
      i := i + 1;
    }
    assert frames[..i] == frames;
  }

  lemma OneMore(q: seq<Block>, k: nat, plugin: nat)
    requires k < |q|
    ensures SlotsOf(q[..k + 1], plugin) == SlotsOf(q[..k], plugin) + Tagged(q[k].frames, plugin)
    ensures Total(q[..k + 1]) == Total(q[..k]) + q[k].totalBytes
  {
    assert q[..k + 1] == q[..k] + [q[k]];
    SlotsConcat(q[..k], [q[k]], plugin);
    TotalConcat(q[..k], [q[k]]);
    assert SlotsOf([q[k]], plugin) == Tagged(q[k].frames, plugin) + SlotsOf([], plugin);
    assert Total([q[k]]) == q[k].totalBytes + Total([]);
  }

  /** The first k blocks have moved. */
  ghost predicate Moved(q: seq<Block>, k: nat, q': seq<Block>, plugin: nat,
                        reserved: seq<Slot>, reserved': seq<Slot>, used: nat, used': nat) {
    && k <= |q| && q' == q[k..]
    && reserved' == reserved + SlotsOf(q[..k], plugin) && used' == used + Total(q[..k])
  }

  lemma MovedMore(q: seq<Block>, k: nat, q': seq<Block>, plugin: nat,
                  reserved: seq<Slot>, reserved': seq<Slot>, used: nat, used': nat)
    requires Moved(q, k, q', plugin, reserved, reserved', used, used') && q' != []
    ensures Moved(q, k + 1, q'[1..], plugin, reserved, reserved' + Tagged(q'[0].frames, plugin),
                  used, used' + q'[0].totalBytes)
  {
    OneMore(q, k, plugin);
    Associative(reserved, SlotsOf(q[..k], plugin), Tagged(q'[0].frames, plugin));
  }

  lemma GreedyMore(q: seq<Block>, used: nat, budget: nat, windowOpen: bool)
    requires q != [] && used + q[0].totalBytes < budget && (!q[0].isCongestionControlled || windowOpen)
    ensures Greedy(q, used, budget, windowOpen) == 1 + Greedy(q[1..], used + q[0].totalBytes, budget, windowOpen)
  {
  }

  lemma GreedyStops(q: seq<Block>, used: nat, budget: nat, windowOpen: bool)
    requires !(q != [] && used + q[0].totalBytes < budget && (!q[0].isCongestionControlled || windowOpen))
    ensures Greedy(q, used, budget, windowOpen) == 0
  {
  }

  /** Move what may go from a queue. */
  method MoveBlocks(q: seq<Block>, plugin: nat, reserved: seq<Slot>, used: nat, budget: nat, windowOpen: bool)
    returns (q': seq<Block>, reserved': seq<Slot>, used': nat)
    ensures var n := Greedy(q, used, budget, windowOpen);
      q' == q[n..] && reserved' == reserved + SlotsOf(q[..n], plugin) && used' == used + Total(q[..n])
  {
    q', reserved', used' := q, reserved, used;
    ghost var k := 0;
    while q' != [] && used' + q'[0].totalBytes < budget && (!q'[0].isCongestionControlled || windowOpen)
      invariant Moved(q, k, q', plugin, reserved, reserved', used, used')
      invariant Greedy(q, used, budget, windowOpen) == k + Greedy(q', used', budget, windowOpen)
      decreases |q'|
    {
      var block := q'[0];
      MovedMore(q, k, q', plugin, reserved, reserved', used, used');
      GreedyMore(q', used', budget, windowOpen);
      q' := q'[1..];
      reserved' := EnqueueFrames(block.frames, plugin, reserved');
      used' := used' + block.totalBytes;
      k := k + 1;
    }
    GreedyStops(q', used', budget, windowOpen);
  }

  // ---------- the two rounds ----------

  /** What is reserved so far, how much of the budget that is, and what the plugins that had
      their turn have in flight. */
  datatype Pass = Pass(plugins: seq<Plugin>, reserved: seq<Slot>, used: nat, inFlight: nat)

  datatype Limits = Limits(budget: nat, windowOpen: bool, maxPluginCwin: int, pluginUse: nat, hasStream: bool)

  /** A plugin within its rate, or without one. */
  predicate MayReserve(p: Plugin, inFlight: nat, l: Limits) {
    && (p.rateUnlimited || inFlight < l.maxPluginCwin)
    && !(l.hasStream && !p.rateUnlimited && l.pluginUse >= l.maxPluginCwin)
  }

  function CcTurn(s: Pass, i: nat, l: Limits): Pass
    requires i < |s.plugins|
  {
    var p := s.plugins[i];
    var n := if MayReserve(p, s.inFlight, l) then Greedy(p.blockQueueCc, s.used, l.budget, l.windowOpen) else 0;
    Pass(s.plugins[i := p.(blockQueueCc := p.blockQueueCc[n..])], s.reserved + SlotsOf(p.blockQueueCc[..n], i),
         s.used + Total(p.blockQueueCc[..n]), s.inFlight + p.bytesInFlight)
  }

  function NonCcTurn(s: Pass, i: nat, l: Limits): Pass
    requires i < |s.plugins|
  {
    var p := s.plugins[i];
    var n := Greedy(p.blockQueueNonCc, s.used, l.budget, l.windowOpen);
    Pass(s.plugins[i := p.(blockQueueNonCc := p.blockQueueNonCc[n..])], s.reserved + SlotsOf(p.blockQueueNonCc[..n], i),
         s.used + Total(p.blockQueueNonCc[..n]), s.inFlight + p.bytesInFlight)
  }

  /** The k-th plugin from the first, going around. */
  function Nth(first: nat, k: nat, n: nat): nat
    requires first < n && k <= n
  {
    if first + k < n then first + k else first + k - n
  }

  /** The first k turns of a round. */
  function CcRound(s: Pass, first: nat, k: nat, l: Limits): (t: Pass)
    requires first < |s.plugins| && k <= |s.plugins|
    ensures |t.plugins| == |s.plugins|
  {
    if k == 0 then s else CcTurn(CcRound(s, first, k - 1, l), Nth(first, k - 1, |s.plugins|), l)
  }

  function NonCcRound(s: Pass, first: nat, k: nat, l: Limits): (t: Pass)
    requires first < |s.plugins| && k <= |s.plugins|
    ensures |t.plugins| == |s.plugins|
  {
    if k == 0 then s else NonCcTurn(NonCcRound(s, first, k - 1, l), Nth(first, k - 1, |s.plugins|), l)
  }

  // ---------- what moves, and what stays ----------

  /** The reserved slots of one plugin, in order. */
  function From(reserved: seq<Slot>, plugin: nat): seq<Slot> {
    if reserved == [] then []
    else
      var k := |reserved| - 1;
      From(reserved[..k], plugin) + if reserved[k].plugin == plugin then [reserved[k]] else []
  }

  predicate Suffix<T(==)>(a: seq<T>, b: seq<T>) {
    |a| <= |b| && a == b[|b| - |a|..]
  }

  lemma {:induction false} FromConcat(a: seq<Slot>, b: seq<Slot>, plugin: nat)
    ensures From(a + b, plugin) == From(a, plugin) + From(b, plugin)
  {
    if b == [] {
      assert a + b == a;
    } else {
      var k := |b| - 1;
      FromConcat(a, b[..k], plugin);
      assert (a + b)[..|a| + k] == a + b[..k];
    }
  }

  lemma {:induction false} FromTagged(frames: seq<Slot>, i: nat, plugin: nat)
    ensures From(Tagged(frames, i), plugin) == if i == plugin then Tagged(frames, i) else []
  {
    if frames != [] {
      var k := |frames| - 1;
      FromTagged(frames[..k], i, plugin);
      FromConcat(Tagged(frames[..k], i), [frames[k].(plugin := i)], plugin);
      assert From([frames[k].(plugin := i)], plugin) ==
        From([], plugin) + if i == plugin then [frames[k].(plugin := i)] else [];
    }
  }

  lemma {:induction false} FromSlots(q: seq<Block>, i: nat, plugin: nat)
    ensures From(SlotsOf(q, i), plugin) == if i == plugin then SlotsOf(q, i) else []
  {
    if q != [] {
      FromSlots(q[1..], i, plugin);
      FromTagged(q[0].frames, i, plugin);
      FromConcat(Tagged(q[0].frames, i), SlotsOf(q[1..], i), plugin);
    }
  }

  /** The blocks that go, and those that stay, are all the blocks, in order. */
  lemma Split(q: seq<Block>, n: nat, plugin: nat)
    requires n <= |q|
    ensures SlotsOf(q[..n], plugin) + SlotsOf(q[n..], plugin) == SlotsOf(q, plugin)
    ensures Total(q[..n]) + Total(q[n..]) == Total(q)
  {
    assert q == q[..n] + q[n..];
    SlotsConcat(q[..n], q[n..], plugin);
    TotalConcat(q[..n], q[n..]);
  }

  /** One queue gives up n blocks from its front to the reserved frames. */
  lemma Handed(reserved: seq<Slot>, q: seq<Block>, n: nat, i: nat, j: nat)
    requires n <= |q|
    ensures From(reserved + SlotsOf(q[..n], i), j) == From(reserved, j) + if i == j then SlotsOf(q[..n], i) else []
    ensures i == j ==> From(reserved + SlotsOf(q[..n], i), j) + SlotsOf(q[n..], i) == From(reserved, j) + SlotsOf(q, i)
  {
    FromConcat(reserved, SlotsOf(q[..n], i), j);
    FromSlots(q[..n], i, j);
    if i == j {
      Split(q, n, i);
      Associative(From(reserved, j), SlotsOf(q[..n], i), SlotsOf(q[n..], i));
    }
  }

  /** What a round does to plugin j: its queue loses blocks from the front, and those are what
      was reserved for it, in order; its other queue stays. */
  ghost predicate CcTracks(s: Pass, t: Pass, j: nat)
    requires j < |s.plugins| == |t.plugins|
  {
    var p, r := s.plugins[j], t.plugins[j];
    && Suffix(r.blockQueueCc, p.blockQueueCc) && r == p.(blockQueueCc := r.blockQueueCc)
    && From(t.reserved, j) + SlotsOf(r.blockQueueCc, j) == From(s.reserved, j) + SlotsOf(p.blockQueueCc, j)
  }

  ghost predicate NonCcTracks(s: Pass, t: Pass, j: nat)
    requires j < |s.plugins| == |t.plugins|
  {
    var p, r := s.plugins[j], t.plugins[j];
    && Suffix(r.blockQueueNonCc, p.blockQueueNonCc) && r == p.(blockQueueNonCc := r.blockQueueNonCc)
    && From(t.reserved, j) + SlotsOf(r.blockQueueNonCc, j) == From(s.reserved, j) + SlotsOf(p.blockQueueNonCc, j)
  }

  lemma CcTurnTracks(s: Pass, i: nat, l: Limits, j: nat)
    requires i < |s.plugins| && j < |s.plugins|
    ensures CcTracks(s, CcTurn(s, i, l), j)
  {
    var p, t := s.plugins[i], CcTurn(s, i, l);
    var n := if MayReserve(p, s.inFlight, l) then Greedy(p.blockQueueCc, s.used, l.budget, l.windowOpen) else 0;
    Handed(s.reserved, p.blockQueueCc, n, i, j);
    if i == j {
      assert t.plugins[j] == p.(blockQueueCc := p.blockQueueCc[n..]);
    } else {
      assert t.plugins[j] == s.plugins[j];
    }
  }

  lemma NonCcTurnTracks(s: Pass, i: nat, l: Limits, j: nat)
    requires i < |s.plugins| && j < |s.plugins|
    ensures NonCcTracks(s, NonCcTurn(s, i, l), j)
  {
    var p := s.plugins[i];
    Handed(s.reserved, p.blockQueueNonCc, Greedy(p.blockQueueNonCc, s.used, l.budget, l.windowOpen), i, j);
  }

  lemma SuffixTransitive<T>(a: seq<T>, b: seq<T>, c: seq<T>)
    requires Suffix(a, b) && Suffix(b, c)
    ensures Suffix(a, c)
  {
  }

  lemma CcTracksTransitive(s: Pass, m: Pass, t: Pass, j: nat)
    requires j < |s.plugins| == |m.plugins| == |t.plugins| && CcTracks(s, m, j) && CcTracks(m, t, j)
    ensures CcTracks(s, t, j)
  {
    SuffixTransitive(t.plugins[j].blockQueueCc, m.plugins[j].blockQueueCc, s.plugins[j].blockQueueCc);
  }

  lemma CcTurnAfter(s: Pass, m: Pass, i: nat, l: Limits, j: nat)
    requires j < |s.plugins| == |m.plugins| && i < |m.plugins| && CcTracks(s, m, j)
    ensures CcTracks(s, CcTurn(m, i, l), j)
  {
    CcTurnTracks(m, i, l, j);
    CcTracksTransitive(s, m, CcTurn(m, i, l), j);
  }

  lemma {:induction false} CcRoundTracks(s: Pass, first: nat, k: nat, l: Limits, j: nat)
    requires first < |s.plugins| && k <= |s.plugins| && j < |s.plugins|
    ensures CcTracks(s, CcRound(s, first, k, l), j)
  {
    if k > 0 {
      CcRoundTracks(s, first, k - 1, l, j);
      CcTurnAfter(s, CcRound(s, first, k - 1, l), Nth(first, k - 1, |s.plugins|), l, j);
    }
  }

  lemma NonCcTracksTransitive(s: Pass, m: Pass, t: Pass, j: nat)
    requires j < |s.plugins| == |m.plugins| == |t.plugins| && NonCcTracks(s, m, j) && NonCcTracks(m, t, j)
    ensures NonCcTracks(s, t, j)
  {
    SuffixTransitive(t.plugins[j].blockQueueNonCc, m.plugins[j].blockQueueNonCc, s.plugins[j].blockQueueNonCc);
  }

  lemma NonCcTurnAfter(s: Pass, m: Pass, i: nat, l: Limits, j: nat)
    requires j < |s.plugins| == |m.plugins| && i < |m.plugins| && NonCcTracks(s, m, j)
    ensures NonCcTracks(s, NonCcTurn(m, i, l), j)
  {
    NonCcTurnTracks(m, i, l, j);
    NonCcTracksTransitive(s, m, NonCcTurn(m, i, l), j);
  }

  lemma {:induction false} NonCcRoundTracks(s: Pass, first: nat, k: nat, l: Limits, j: nat)
    requires first < |s.plugins| && k <= |s.plugins| && j < |s.plugins|
    ensures NonCcTracks(s, NonCcRound(s, first, k, l), j)
  {
    if k > 0 {
      NonCcRoundTracks(s, first, k - 1, l, j);
      NonCcTurnAfter(s, NonCcRound(s, first, k - 1, l), Nth(first, k - 1, |s.plugins|), l, j);
    }
  }

  // ---------- the budget ----------

  function Queued(plugins: seq<Plugin>): nat {
    if plugins == [] then 0
    else Total(plugins[0].blockQueueCc) + Total(plugins[0].blockQueueNonCc) + Queued(plugins[1..])
  }

  lemma {:induction false} QueuedUpdate(plugins: seq<Plugin>, i: nat, p: Plugin)
    requires i < |plugins|
    ensures Queued(plugins[i := p]) + Total(plugins[i].blockQueueCc) + Total(plugins[i].blockQueueNonCc) ==
      Queued(plugins) + Total(p.blockQueueCc) + Total(p.blockQueueNonCc)
  {
    if i == 0 {
      assert plugins[i := p][1..] == plugins[1..];
    } else {
      QueuedUpdate(plugins[1..], i - 1, p);
      assert plugins[i := p][1..] == plugins[1..][i - 1 := p];
    }
  }

  /** Bytes are neither made nor lost, and what is used stays below the budget. */
  ghost predicate Within(s: Pass, t: Pass, budget: nat) {
    t.used + Queued(t.plugins) == s.used + Queued(s.plugins) && (t.used == s.used || t.used < budget)
  }

  lemma CcTurnWithin(s: Pass, i: nat, l: Limits)
    requires i < |s.plugins|
    ensures Within(s, CcTurn(s, i, l), l.budget)
  {
    var p := s.plugins[i];
    var n := if MayReserve(p, s.inFlight, l) then Greedy(p.blockQueueCc, s.used, l.budget, l.windowOpen) else 0;
    GreedyFits(p.blockQueueCc, s.used, l.budget, l.windowOpen);
    Split(p.blockQueueCc, n, i);
    QueuedUpdate(s.plugins, i, p.(blockQueueCc := p.blockQueueCc[n..]));
    assert Total(p.blockQueueCc[..0]) == 0;
  }

  lemma NonCcTurnWithin(s: Pass, i: nat, l: Limits)
    requires i < |s.plugins|
    ensures Within(s, NonCcTurn(s, i, l), l.budget)
  {
    var p := s.plugins[i];
    var n := Greedy(p.blockQueueNonCc, s.used, l.budget, l.windowOpen);
    GreedyFits(p.blockQueueNonCc, s.used, l.budget, l.windowOpen);
    Split(p.blockQueueNonCc, n, i);
    QueuedUpdate(s.plugins, i, p.(blockQueueNonCc := p.blockQueueNonCc[n..]));
    assert Total(p.blockQueueNonCc[..0]) == 0;
  }

  lemma {:induction false} CcRoundWithin(s: Pass, first: nat, k: nat, l: Limits)
    requires first < |s.plugins| && k <= |s.plugins|
    ensures Within(s, CcRound(s, first, k, l), l.budget)
  {
    if k > 0 {
      CcRoundWithin(s, first, k - 1, l);
      CcTurnWithin(CcRound(s, first, k - 1, l), Nth(first, k - 1, |s.plugins|), l);
    }
  }

  lemma {:induction false} NonCcRoundWithin(s: Pass, first: nat, k: nat, l: Limits)
    requires first < |s.plugins| && k <= |s.plugins|
    ensures Within(s, NonCcRound(s, first, k, l), l.budget)
  {
    if k > 0 {
      NonCcRoundWithin(s, first, k - 1, l);
      NonCcTurnWithin(NonCcRound(s, first, k - 1, l), Nth(first, k - 1, |s.plugins|), l);
    }
  }

  // ---------- a whole reservation ----------

  function Reserve(s: Pass, first: nat, l: Limits): Pass
    requires first < |s.plugins|
  {
    NonCcRound(CcRound(s, first, |s.plugins|, l), first, |s.plugins|, l)
  }

  /** Whole blocks move, first in first out: for each plugin, what was reserved is the front of
      its first queue and then the front of its second, and the rest is still there. */
  lemma ReserveMoves(s: Pass, first: nat, l: Limits, j: nat)
    requires first < |s.plugins| && j < |s.plugins|
    ensures var t := Reserve(s, first, l); var p, r := s.plugins[j], t.plugins[j];
      && |t.plugins| == |s.plugins| && Suffix(r.blockQueueCc, p.blockQueueCc)
      && Suffix(r.blockQueueNonCc, p.blockQueueNonCc)
      && From(t.reserved, j) == From(s.reserved, j)
           + SlotsOf(p.blockQueueCc[..|p.blockQueueCc| - |r.blockQueueCc|], j)
           + SlotsOf(p.blockQueueNonCc[..|p.blockQueueNonCc| - |r.blockQueueNonCc|], j)
  {
    var n := |s.plugins|;
    var m := CcRound(s, first, n, l);
    var t := Reserve(s, first, l);
    var p, q, r := s.plugins[j], m.plugins[j], t.plugins[j];
    CcRoundTracks(s, first, n, l, j);
    NonCcRoundTracks(m, first, n, l, j);
    Split(p.blockQueueCc, |p.blockQueueCc| - |q.blockQueueCc|, j);
    Split(q.blockQueueNonCc, |q.blockQueueNonCc| - |r.blockQueueNonCc|, j);
    Cancel(From(m.reserved, j), From(s.reserved, j), SlotsOf(p.blockQueueCc[..|p.blockQueueCc| - |q.blockQueueCc|], j),
           SlotsOf(q.blockQueueCc, j));
    Cancel(From(t.reserved, j), From(m.reserved, j),
           SlotsOf(q.blockQueueNonCc[..|q.blockQueueNonCc| - |r.blockQueueNonCc|], j), SlotsOf(r.blockQueueNonCc, j));
  }

  lemma Cancel(a: seq<Slot>, b: seq<Slot>, c: seq<Slot>, d: seq<Slot>)
    requires a + d == b + (c + d)
    ensures a == b + c
  {
    assert |a| == |b + c|;
    assert a == (a + d)[..|a|];
    assert b + c == (b + (c + d))[..|b + c|];
  }

  /** The bytes moved are zero or below the budget. */
  lemma ReserveWithin(s: Pass, first: nat, l: Limits)
    requires first < |s.plugins| && s.used == 0
    ensures var t := Reserve(s, first, l);
      (t.used == 0 || t.used < l.budget) && t.used + Queued(t.plugins) == Queued(s.plugins)
  {
    CcRoundWithin(s, first, |s.plugins|, l);
    NonCcRoundWithin(CcRound(s, first, |s.plugins|, l), first, |s.plugins|, l);
  }

  // ---------- who gets how much, by the numbers ----------

  /** What a call is given: the window and what is in transit of it, the share in 1/1000 that the core keeps, the
      budget, and whether there is a stream to send. */
  datatype Offer = Offer(cwin: nat, inTransit: nat, coreRate: nat, budget: nat, hasStream: bool)

  /** The plugins in the order of their turns: around, beginning with the first. */
  ghost predicate InTurn(turns: seq<nat>, first: nat, n: nat) {
    n > 0 && |turns| == n && forall d :: 0 <= d < n ==> turns[d] == (first + d) % n
  }

  /** All different. */
  ghost predicate Order(turns: seq<nat>, n: nat) {
    |turns| == n && (forall d :: 0 <= d < n ==> turns[d] < n) && forall d, e :: 0 <= d < e < n ==> turns[d] != turns[e]
  }

  /** The bytes of the blocks given in some turns. */
  ghost function Bytes(given: seq<seq<Block>>): nat {
    if given == [] then 0 else Bytes(given[..|given| - 1]) + Total(given[|given| - 1])
  }

  /** And their slots. */
  ghost function SlotsFor(given: seq<seq<Block>>, turns: seq<nat>): seq<Slot>
    requires |given| <= |turns|
  {
    if given == [] then []
    else
      var d := |given| - 1;
      SlotsFor(given[..d], turns) + SlotsOf(given[d], turns[d])
  }

  /** What the plugins have in flight that have the first d turns. */
  ghost function Ahead(ps: seq<Plugin>, turns: seq<nat>, d: nat): nat
    requires Order(turns, |ps|) && d <= |turns|
  {
    if d == 0 then 0 else Ahead(ps, turns, d - 1) + ps[turns[d - 1]].bytesInFlight
  }

  /** These blocks go from the front of a queue: none, or they stay below the budget; none under congestion control
      while the window is full; and if any are allowed, the next one would be too much. */
  ghost predicate Goes(q: seq<Block>, b: seq<Block>, used: nat, o: Offer, allowed: bool) {
    && b <= q && (b != [] ==> allowed && used + Total(b) < o.budget)
    && (o.inTransit >= o.cwin ==> forall i :: 0 <= i < |b| ==> !b[i].isCongestionControlled)
    && (allowed && |b| < |q| ==>
      used + Total(b) + q[|b|].totalBytes >= o.budget || (q[|b|].isCongestionControlled && o.inTransit >= o.cwin))
  }

  /** Over its share: the plugin has a rate, and those before it, or with a stream to send all together, have at
      least the share of the window in flight that the core leaves. */
  ghost predicate Over(p: Plugin, ahead: nat, use: nat, o: Offer)
    requires o.coreRate <= 1000
  {
    && !p.rateUnlimited
    && (ahead >= o.cwin * (1000 - o.coreRate) / 1000 || (o.hasStream && use >= o.cwin * (1000 - o.coreRate) / 1000))
  }

  /** In turn d of the first round, a plugin that is not over its share gives what fits from its first queue. */
  ghost predicate CcRule(ps: seq<Plugin>, turns: seq<nat>, given: seq<seq<Block>>, d: nat, o: Offer)
    requires Order(turns, |ps|) && d < |given| <= |ps| && o.coreRate <= 1000
  {
    var p := ps[turns[d]];
    Goes(p.blockQueueCc, given[d], Bytes(given[..d]), o, !Over(p, Ahead(ps, turns, d), Use(ps), o))
  }

  /** In turn d of the second round, any plugin gives what fits from its second queue. */
  ghost predicate NonCcRule(ps: seq<Plugin>, turns: seq<nat>, used: nat, given: seq<seq<Block>>, d: nat, o: Offer)
    requires Order(turns, |ps|) && d < |given| <= |ps|
  {
    Goes(ps[turns[d]].blockQueueNonCc, given[d], used + Bytes(given[..d]), o, true)
  }

  ghost predicate CcRules(ps: seq<Plugin>, turns: seq<nat>, given: seq<seq<Block>>, o: Offer) {
    && Order(turns, |ps|) && |given| <= |ps| && o.coreRate <= 1000
    && forall d :: 0 <= d < |given| ==> CcRule(ps, turns, given, d, o)
  }

  ghost predicate NonCcRules(ps: seq<Plugin>, turns: seq<nat>, used: nat, given: seq<seq<Block>>, o: Offer) {
    && Order(turns, |ps|) && |given| <= |ps|
    && forall d :: 0 <= d < |given| ==> NonCcRule(ps, turns, used, given, d, o)
  }

  // ---------- the rounds keep to the rules ----------

  lemma {:induction false} GreedyOpen(q: seq<Block>, used: nat, budget: nat, windowOpen: bool)
    ensures !windowOpen ==> forall i :: 0 <= i < Greedy(q, used, budget, windowOpen) ==> !q[i].isCongestionControlled
  {
    var n := Greedy(q, used, budget, windowOpen);
    if n > 0 {
      GreedyOpen(q[1..], used + q[0].totalBytes, budget, windowOpen);
      forall i | 0 <= i < n && !windowOpen ensures !q[i].isCongestionControlled {
        assert i > 0 ==> q[i] == q[1..][i - 1];
      }
    }
  }

  lemma GreedyGoes(q: seq<Block>, used: nat, o: Offer)
    ensures Goes(q, q[..Greedy(q, used, o.budget, o.inTransit < o.cwin)], used, o, true)
  {
    GreedyFits(q, used, o.budget, o.inTransit < o.cwin);
    GreedyOpen(q, used, o.budget, o.inTransit < o.cwin);
  }

  ghost function LimitsOf(ps: seq<Plugin>, o: Offer): Limits
    requires o.coreRate <= 1000
  {
    Limits(o.budget, o.inTransit < o.cwin, MaxPluginCwin(o.cwin, o.coreRate), Use(ps), o.hasStream)
  }

  function QueueOf(p: Plugin, cc: bool): seq<Block> {
    if cc then p.blockQueueCc else p.blockQueueNonCc
  }

  /** What is left of a plugin that has given n blocks. */
  function Less(p: Plugin, cc: bool, n: nat): Plugin
    requires n <= |QueueOf(p, cc)|
  {
    if cc then p.(blockQueueCc := p.blockQueueCc[n..]) else p.(blockQueueNonCc := p.blockQueueNonCc[n..])
  }

  /** What a turn does, when plugin i gives some blocks. */
  ghost function Given(s: Pass, i: nat, b: seq<Block>, cc: bool): Pass
    requires i < |s.plugins| && |b| <= |QueueOf(s.plugins[i], cc)|
  {
    var p := s.plugins[i];
    Pass(s.plugins[i := Less(p, cc, |b|)], s.reserved + SlotsOf(b, i), s.used + Total(b), s.inFlight + p.bytesInFlight)
  }

  lemma CcTurnGoes(s: Pass, i: nat, l: Limits, o: Offer, ps: seq<Plugin>) returns (b: seq<Block>)
    requires i < |s.plugins| && o.coreRate <= 1000 && l == LimitsOf(ps, o)
    ensures Goes(s.plugins[i].blockQueueCc, b, s.used, o, !Over(s.plugins[i], s.inFlight, Use(ps), o))
    ensures CcTurn(s, i, l) == Given(s, i, b, true)
  {
    var p := s.plugins[i];
    GreedyGoes(p.blockQueueCc, s.used, o);
    if MayReserve(p, s.inFlight, l) {
      b := p.blockQueueCc[..Greedy(p.blockQueueCc, s.used, l.budget, l.windowOpen)];
    } else {
      b := [];
      assert p.blockQueueCc[..0] == [] && p.blockQueueCc[0..] == p.blockQueueCc;
    }
  }

  lemma NonCcTurnGoes(s: Pass, i: nat, l: Limits, o: Offer) returns (b: seq<Block>)
    requires i < |s.plugins| && l.budget == o.budget && l.windowOpen == (o.inTransit < o.cwin)
    ensures Goes(s.plugins[i].blockQueueNonCc, b, s.used, o, true) && NonCcTurn(s, i, l) == Given(s, i, b, false)
  {
    var p := s.plugins[i];
    GreedyGoes(p.blockQueueNonCc, s.used, o);
    b := p.blockQueueNonCc[..Greedy(p.blockQueueNonCc, s.used, l.budget, l.windowOpen)];
  }

  /** Who had a turn has given its blocks, and the others are as they were. */
  ghost predicate Gave(ps: seq<Plugin>, rs: seq<Plugin>, turns: seq<nat>, given: seq<seq<Block>>, cc: bool) {
    && Order(turns, |ps|) && |rs| == |ps| && |given| <= |ps|
    && (forall d :: 0 <= d < |given| ==> GaveBlocks(ps, rs, turns[d], given[d], cc))
    && (forall d :: |given| <= d < |ps| ==> rs[turns[d]] == ps[turns[d]])
  }

  ghost predicate GaveBlocks(ps: seq<Plugin>, rs: seq<Plugin>, i: nat, b: seq<Block>, cc: bool) {
    i < |ps| == |rs| && |b| <= |QueueOf(ps[i], cc)| && rs[i] == Less(ps[i], cc, |b|)
  }

  ghost predicate Sums(s: Pass, t: Pass, turns: seq<nat>, given: seq<seq<Block>>)
    requires Order(turns, |s.plugins|) && |given| <= |turns|
  {
    && t.used == s.used + Bytes(given) && t.reserved == s.reserved + SlotsFor(given, turns)
    && t.inFlight == s.inFlight + Ahead(s.plugins, turns, |given|)
  }

  lemma GaveMore(ps: seq<Plugin>, rs: seq<Plugin>, turns: seq<nat>, given: seq<seq<Block>>, b: seq<Block>, cc: bool)
    requires Gave(ps, rs, turns, given, cc) && |given| < |ps| && |b| <= |QueueOf(ps[turns[|given|]], cc)|
    ensures var i := turns[|given|]; rs[i] == ps[i] && Gave(ps, rs[i := Less(ps[i], cc, |b|)], turns, given + [b], cc)
  {
    var k, given' := |given|, given + [b];
    var i := turns[k];
    var rs' := rs[i := Less(ps[i], cc, |b|)];
    forall d | 0 <= d < |given'| ensures GaveBlocks(ps, rs', turns[d], given'[d], cc) {
      assert d < k ==> GaveBlocks(ps, rs, turns[d], given[d], cc);
    }
  }

  lemma SumsMore(s: Pass, t: Pass, turns: seq<nat>, given: seq<seq<Block>>, b: seq<Block>, t': Pass)
    requires Order(turns, |s.plugins|) && |given| < |turns| && Sums(s, t, turns, given)
    requires var i := turns[|given|];
      && t'.reserved == t.reserved + SlotsOf(b, i) && t'.used == t.used + Total(b)
      && t'.inFlight == t.inFlight + s.plugins[i].bytesInFlight
    ensures Sums(s, t', turns, given + [b])
  {
    assert (given + [b])[..|given|] == given;
    Associative(s.reserved, SlotsFor(given, turns), SlotsOf(b, turns[|given|]));
  }

  /** Turns before do not depend on what is given now. */
  lemma CcRulesMore(ps: seq<Plugin>, turns: seq<nat>, given: seq<seq<Block>>, b: seq<Block>, o: Offer)
    requires CcRules(ps, turns, given, o) && |given| < |ps|
    requires var p := ps[turns[|given|]];
      Goes(p.blockQueueCc, b, Bytes(given), o, !Over(p, Ahead(ps, turns, |given|), Use(ps), o))
    ensures CcRules(ps, turns, given + [b], o)
  {
    var given' := given + [b];
    forall d | 0 <= d < |given'| ensures CcRule(ps, turns, given', d, o) {
      if d < |given| {
        assert CcRule(ps, turns, given, d, o);
      }
      assert given'[..d] == given[..d];
      assert given[..|given|] == given;
    }
  }

  lemma NonCcRulesMore(ps: seq<Plugin>, turns: seq<nat>, used: nat, given: seq<seq<Block>>, b: seq<Block>, o: Offer)
    requires NonCcRules(ps, turns, used, given, o) && |given| < |ps|
    requires Goes(ps[turns[|given|]].blockQueueNonCc, b, used + Bytes(given), o, true)
    ensures NonCcRules(ps, turns, used, given + [b], o)
  {
    var given' := given + [b];
    forall d | 0 <= d < |given'| ensures NonCcRule(ps, turns, used, given', d, o) {
      if d < |given| {
        assert NonCcRule(ps, turns, used, given, d, o);
      }
      assert given'[..d] == given[..d];
      assert given[..|given|] == given;
    }
  }

  ghost predicate IsNth(turns: seq<nat>, first: nat, n: nat) {
    first < n && Order(turns, n) && forall d :: 0 <= d < n ==> turns[d] == Nth(first, d, n)
  }

  lemma CcStep(s: Pass, turns: seq<nat>, t: Pass, t': Pass, front: seq<seq<Block>>, l: Limits, o: Offer)
      returns (b: seq<Block>)
    requires CcRules(s.plugins, turns, front, o) && |front| < |turns| && s.used == 0 && s.inFlight == 0
    requires l == LimitsOf(s.plugins, o) && Gave(s.plugins, t.plugins, turns, front, true) && Sums(s, t, turns, front)
    requires t' == CcTurn(t, turns[|front|], l)
    ensures CcRules(s.plugins, turns, front + [b], o)
    ensures Gave(s.plugins, t'.plugins, turns, front + [b], true) && Sums(s, t', turns, front + [b])
  {
    b := CcTurnGoes(t, turns[|front|], l, o, s.plugins);
    GaveMore(s.plugins, t.plugins, turns, front, b, true);
    SumsMore(s, t, turns, front, b, t');
    CcRulesMore(s.plugins, turns, front, b, o);
  }

  lemma CcUnrolled(s: Pass, first: nat, turns: seq<nat>, k: nat, l: Limits)
    requires IsNth(turns, first, |s.plugins|) && 0 < k <= |turns|
    ensures CcRound(s, first, k, l) == CcTurn(CcRound(s, first, k - 1, l), turns[k - 1], l)
  {
  }

  lemma {:induction false} CcRoundRules(s: Pass, first: nat, turns: seq<nat>, k: nat, l: Limits, o: Offer)
      returns (given: seq<seq<Block>>)
    requires IsNth(turns, first, |s.plugins|) && k <= |turns| && o.coreRate <= 1000 && s.used == 0 && s.inFlight == 0
    requires l == LimitsOf(s.plugins, o)
    ensures |given| == k && CcRules(s.plugins, turns, given, o)
    ensures var t := CcRound(s, first, k, l); Gave(s.plugins, t.plugins, turns, given, true) && Sums(s, t, turns, given)
  {
    given := [];
    if k > 0 {
      var front := CcRoundRules(s, first, turns, k - 1, l, o);
      CcUnrolled(s, first, turns, k, l);
      var b := CcStep(s, turns, CcRound(s, first, k - 1, l), CcRound(s, first, k, l), front, l, o);
      given := front + [b];
    }
  }

  lemma NonCcStep(s: Pass, turns: seq<nat>, t: Pass, t': Pass, front: seq<seq<Block>>, l: Limits, o: Offer)
      returns (b: seq<Block>)
    requires NonCcRules(s.plugins, turns, s.used, front, o) && |front| < |turns|
    requires l.budget == o.budget && l.windowOpen == (o.inTransit < o.cwin)
    requires Gave(s.plugins, t.plugins, turns, front, false) && Sums(s, t, turns, front)
    requires t' == NonCcTurn(t, turns[|front|], l)
    ensures NonCcRules(s.plugins, turns, s.used, front + [b], o)
    ensures Gave(s.plugins, t'.plugins, turns, front + [b], false) && Sums(s, t', turns, front + [b])
  {
    b := NonCcTurnGoes(t, turns[|front|], l, o);
    GaveMore(s.plugins, t.plugins, turns, front, b, false);
    SumsMore(s, t, turns, front, b, t');
    NonCcRulesMore(s.plugins, turns, s.used, front, b, o);
  }

  lemma NonCcUnrolled(s: Pass, first: nat, turns: seq<nat>, k: nat, l: Limits)
    requires IsNth(turns, first, |s.plugins|) && 0 < k <= |turns|
    ensures NonCcRound(s, first, k, l) == NonCcTurn(NonCcRound(s, first, k - 1, l), turns[k - 1], l)
  {
  }

  lemma {:induction false} NonCcRoundRules(s: Pass, first: nat, turns: seq<nat>, k: nat, l: Limits, o: Offer)
      returns (given: seq<seq<Block>>)
    requires IsNth(turns, first, |s.plugins|) && k <= |turns|
    requires l.budget == o.budget && l.windowOpen == (o.inTransit < o.cwin)
    ensures |given| == k && NonCcRules(s.plugins, turns, s.used, given, o)
    ensures var t := NonCcRound(s, first, k, l);
      Gave(s.plugins, t.plugins, turns, given, false) && Sums(s, t, turns, given)
  {
    given := [];
    if k > 0 {
      var front := NonCcRoundRules(s, first, turns, k - 1, l, o);
      NonCcUnrolled(s, first, turns, k, l);
      var b := NonCcStep(s, turns, NonCcRound(s, first, k - 1, l), NonCcRound(s, first, k, l), front, l, o);
      given := front + [b];
    }
  }

  lemma NthAround(first: nat, d: nat, n: nat)
    requires first < n && d < n
    ensures Nth(first, d, n) == (first + d) % n
  {
    if first + d >= n {
      Around(first + d - n, n);
    }
  }

  lemma NthApart(turns: seq<nat>, first: nat, n: nat)
    requires first < n && |turns| == n && forall d :: 0 <= d < n ==> turns[d] == Nth(first, d, n)
    ensures Order(turns, n)
  {
  }

  lemma TurnsOf(first: nat, n: nat) returns (turns: seq<nat>)
    requires first < n
    ensures InTurn(turns, first, n) && IsNth(turns, first, n)
  {
    turns := seq(n, d requires 0 <= d < n => Nth(first, d, n));
    NthApart(turns, first, n);
    forall d | 0 <= d < n ensures turns[d] == (first + d) % n {
      NthAround(first, d, n);
    }
  }

  lemma Around(r: nat, n: nat)
    requires r < n
    ensures (r + n) % n == r
  {
  }

  /** What a call does, by the numbers: blocks g1 go in the turns of the first round and g2 in those of the second,
      each by its rule; what is left is the rest of the queues, and the slots are reserved in that order. */
  ghost predicate Fair(ps: seq<Plugin>, rs: seq<Plugin>, reserved: seq<Slot>, reserved': seq<Slot>, queued: nat,
                       turns: seq<nat>, g1: seq<seq<Block>>, g2: seq<seq<Block>>, o: Offer)
    requires o.coreRate <= 1000
  {
    && Order(turns, |ps|) && |rs| == |ps| == |g1| == |g2|
    && CcRules(ps, turns, g1, o) && NonCcRules(ps, turns, Bytes(g1), g2, o)
    && (forall d :: 0 <= d < |ps| ==> Drained(ps[turns[d]], rs[turns[d]], |g1[d]|, |g2[d]|))
    && reserved' == reserved + SlotsFor(g1, turns) + SlotsFor(g2, turns) && queued == Bytes(g1) + Bytes(g2)
  }

  ghost predicate Drained(p: Plugin, r: Plugin, n: nat, m: nat) {
    && n <= |p.blockQueueCc| && m <= |p.blockQueueNonCc|
    && r == Plugin(p.blockQueueCc[n..], p.blockQueueNonCc[m..], p.bytesInFlight, p.rateUnlimited)
  }

  lemma RuleElsewhere(ps: seq<Plugin>, ms: seq<Plugin>, turns: seq<nat>, g1: seq<seq<Block>>, used: nat,
                      g2: seq<seq<Block>>, d: nat, o: Offer)
    requires Gave(ps, ms, turns, g1, true) && |g1| == |ps| && d < |g2| == |ps| && NonCcRule(ms, turns, used, g2, d, o)
    ensures NonCcRule(ps, turns, used, g2, d, o)
  {
    assert GaveBlocks(ps, ms, turns[d], g1[d], true);
  }

  lemma DrainedBoth(ps: seq<Plugin>, ms: seq<Plugin>, rs: seq<Plugin>, turns: seq<nat>, g1: seq<seq<Block>>,
                    g2: seq<seq<Block>>, d: nat)
    requires Gave(ps, ms, turns, g1, true) && Gave(ms, rs, turns, g2, false) && d < |ps| == |g1| == |g2|
    ensures Drained(ps[turns[d]], rs[turns[d]], |g1[d]|, |g2[d]|)
  {
    assert GaveBlocks(ps, ms, turns[d], g1[d], true) && GaveBlocks(ms, rs, turns[d], g2[d], false);
  }

  /** Each plugin gets what the rules say, in its turn. */
  lemma ReserveIsFair(ps: seq<Plugin>, reserved: seq<Slot>, first: nat, o: Offer)
      returns (turns: seq<nat>, g1: seq<seq<Block>>, g2: seq<seq<Block>>)
    requires first < |ps| && o.coreRate <= 1000
    ensures InTurn(turns, first, |ps|)
    ensures var t := Reserve(Pass(ps, reserved, 0, 0), first, LimitsOf(ps, o));
      Fair(ps, t.plugins, reserved, t.reserved, t.used, turns, g1, g2, o)
  {
    var n, s, l := |ps|, Pass(ps, reserved, 0, 0), LimitsOf(ps, o);
    turns := TurnsOf(first, n);
    g1 := CcRoundRules(s, first, turns, n, l, o);
    var m := CcRound(s, first, n, l);
    g2 := NonCcRoundRules(m, first, turns, n, l, o);
    var t := Reserve(s, first, l);
    forall d | 0 <= d < n
      ensures NonCcRule(ps, turns, Bytes(g1), g2, d, o)
      ensures Drained(ps[turns[d]], t.plugins[turns[d]], |g1[d]|, |g2[d]|) {
      RuleElsewhere(ps, m.plugins, turns, g1, m.used, g2, d, o);
      DrainedBoth(ps, m.plugins, t.plugins, turns, g1, g2, d);
    }
  }

  class Scheduler {
    var plugins: seq<Plugin>
    /** Whose turn it is to go first; -1 before the first call. */
    var firstDrr: int
    var reserved: seq<Slot>

    ghost predicate Valid()
      reads this
    {
      -1 <= firstDrr && (plugins != [] ==> firstDrr < |plugins|)
    }

    /** get_next_plugin. */
    function NextPlugin(i: nat): nat
      reads `plugins
    {
      if i + 1 < |plugins| then i + 1 else 0
    }

    /** What is in flight for all plugins together. */
    method PluginUse() returns (use: nat)
      ensures use == Use(plugins)
    {
      use := 0;
      var i := 0;
      while i < |plugins|
        invariant i <= |plugins| && use + Use(plugins[i..]) == Use(plugins)
      {
        use := use + plugins[i].bytesInFlight;
        i := i + 1;
      }
    }

    method CcTurnAt(p: nat, l: Limits, used: nat, total: nat) returns (used': nat, total': nat)
      requires p < |plugins|
      modifies `plugins, `reserved
      ensures Pass(plugins, reserved, used', total') == CcTurn(Pass(old(plugins), old(reserved), used, total), p, l)
    {
      used' := used;
      var q := plugins[p];
      assert plugins[p := q] == plugins;
      if q.rateUnlimited || total < l.maxPluginCwin {
        if !(l.hasStream && !q.rateUnlimited && l.pluginUse >= l.maxPluginCwin) {
          var rest;
          rest, reserved, used' := MoveBlocks(q.blockQueueCc, p, reserved, used, l.budget, l.windowOpen);
          plugins := plugins[p := q.(blockQueueCc := rest)];
        }
      }
      total' := total + q.bytesInFlight;
    }

    /** The first round; total is what the plugins that had their turn have in flight. */
    method FirstPass(l: Limits, used: nat, total: nat) returns (used': nat, total': nat)
      requires 0 <= firstDrr < |plugins|
      modifies `plugins, `reserved
      ensures Pass(plugins, reserved, used', total') ==
        CcRound(Pass(old(plugins), old(reserved), used, total), firstDrr, |old(plugins)|, l)
    {
      used', total' := used, total;
      var p: nat := firstDrr;
      ghost var k: nat, start := 0, Pass(plugins, reserved, used, total);
      var around := false;
      while !around
        invariant |plugins| == |start.plugins| && k <= |plugins| && p == Nth(firstDrr, k, |plugins|)
        invariant around <==> k == |plugins|
        invariant Pass(plugins, reserved, used', total') == CcRound(start, firstDrr, k, l)
        decreases |start.plugins| - k
      {
        used', total' := CcTurnAt(p, l, used', total');
        k := k + 1;
        p := NextPlugin(p);
        around := p == firstDrr;
      }
    }

    method NonCcTurnAt(p: nat, l: Limits, used: nat, total: nat) returns (used': nat, total': nat)
      requires p < |plugins|
      modifies `plugins, `reserved
      ensures Pass(plugins, reserved, used', total') == NonCcTurn(Pass(old(plugins), old(reserved), used, total), p, l)
    {
      used' := used;
      var q := plugins[p];
      assert plugins[p := q] == plugins;
      var rest;
      rest, reserved, used' := MoveBlocks(q.blockQueueNonCc, p, reserved, used, l.budget, l.windowOpen);
      plugins := plugins[p := q.(blockQueueNonCc := rest)];
      total' := total + q.bytesInFlight;
    }

    /** The second round. */
    method SecondPass(l: Limits, used: nat, total: nat) returns (used': nat, total': nat)
      requires 0 <= firstDrr < |plugins|
      modifies `plugins, `reserved
      ensures Pass(plugins, reserved, used', total') ==
        NonCcRound(Pass(old(plugins), old(reserved), used, total), firstDrr, |old(plugins)|, l)
    {
      used', total' := used, total;
      var p: nat := firstDrr;
      ghost var k: nat, start := 0, Pass(plugins, reserved, used, total);
      var around := false;
      while !around
        invariant |plugins| == |start.plugins| && k <= |plugins| && p == Nth(firstDrr, k, |plugins|)
        invariant around <==> k == |plugins|
        invariant Pass(plugins, reserved, used', total') == NonCcRound(start, firstDrr, k, l)
        decreases |start.plugins| - k
      {
        used', total' := NonCcTurnAt(p, l, used', total');
        k := k + 1;
        p := NextPlugin(p);
        around := p == firstDrr;
      }
    }

    /** Reserve up to the budget; the plugin that went first goes last next time. */
    method FrameFairReserve(hasStream: bool, cwin: nat, bytesInTransit: nat, coreRate: nat, budget: nat)
        returns (queued: nat, ghost turns: seq<nat>, ghost g1: seq<seq<Block>>, ghost g2: seq<seq<Block>>)
      requires Valid() && coreRate <= 1000
      modifies this
      ensures Valid()
      ensures old(plugins) == [] ==> queued == 0 && unchanged(this)
      ensures old(plugins) != [] ==>
        var n := |old(plugins)|;
        var first := if old(firstDrr) < 0 then 0 else old(firstDrr);
        var l := Limits(budget, bytesInTransit < cwin, MaxPluginCwin(cwin, coreRate), Use(old(plugins)), hasStream);
        var t := Reserve(Pass(old(plugins), old(reserved), 0, 0), first, l);
        && plugins == t.plugins && reserved == t.reserved && queued == t.used && firstDrr == Nth(first, 1, n)
        && (queued == 0 || queued < budget) && queued + Queued(plugins) == Queued(old(plugins))
      ensures old(plugins) != [] ==>
        var first := if old(firstDrr) < 0 then 0 else old(firstDrr);
        && InTurn(turns, first, |old(plugins)|) && firstDrr == (first + 1) % |old(plugins)|
        && Fair(old(plugins), plugins, old(reserved), reserved, queued, turns, g1, g2,
                Offer(cwin, bytesInTransit, coreRate, budget, hasStream))
    {
      turns, g1, g2 := [], [], [];
      if plugins == [] {
        return 0, turns, g1, g2;
      }
      if firstDrr < 0 {
        firstDrr := 0;
      }
      Successor(firstDrr, |plugins|);
      queued, turns, g1, g2 := ReserveFrom(hasStream, cwin, bytesInTransit, coreRate, budget);
      firstDrr := NextPlugin(firstDrr);
    }

    /** Both passes, from the first plugin on. */
    method ReserveFrom(hasStream: bool, cwin: nat, bytesInTransit: nat, coreRate: nat, budget: nat)
        returns (queued: nat, ghost turns: seq<nat>, ghost g1: seq<seq<Block>>, ghost g2: seq<seq<Block>>)
      requires 0 <= firstDrr < |plugins| && coreRate <= 1000
      modifies `plugins, `reserved
      ensures |plugins| == |old(plugins)|
      ensures
        var l := Limits(budget, bytesInTransit < cwin, MaxPluginCwin(cwin, coreRate), Use(old(plugins)), hasStream);
        var t := Reserve(Pass(old(plugins), old(reserved), 0, 0), firstDrr, l);
        plugins == t.plugins && reserved == t.reserved && queued == t.used
      ensures (queued == 0 || queued < budget) && queued + Queued(plugins) == Queued(old(plugins))
      ensures InTurn(turns, firstDrr, |old(plugins)|)
      ensures Fair(old(plugins), plugins, old(reserved), reserved, queued, turns, g1, g2,
                   Offer(cwin, bytesInTransit, coreRate, budget, hasStream))
    {
      turns, g1, g2 := ReserveIsFair(plugins, reserved, firstDrr,
                                     Offer(cwin, bytesInTransit, coreRate, budget, hasStream));
      var use := PluginUse();
      queued := BothPasses(Limits(budget, bytesInTransit < cwin, MaxPluginCwin(cwin, coreRate), use, hasStream));
    }

    method BothPasses(l: Limits) returns (queued: nat)
      requires 0 <= firstDrr < |plugins|
      modifies `plugins, `reserved
      ensures var t := Reserve(Pass(old(plugins), old(reserved), 0, 0), firstDrr, l);
        plugins == t.plugins && reserved == t.reserved && queued == t.used && |t.plugins| == |old(plugins)|
      ensures (queued == 0 || queued < l.budget) && queued + Queued(plugins) == Queued(old(plugins))
    {
      ReserveWithin(Pass(plugins, reserved, 0, 0), firstDrr, l);
      var total;
      queued, total := FirstPass(l, 0, 0);
      queued, total := SecondPass(l, queued, total);
    }
  }

  lemma Successor(i: nat, n: nat)
    requires i < n
    ensures (i + 1) % n == if i + 1 < n then i + 1 else 0
  {
    if i + 1 == n {
      Around(0, n);
    }
  }

  /** The share of the window that is not kept for the core. */
  function MaxPluginCwin(cwin: nat, coreRate: nat): int
    requires coreRate <= 1000
  {
    cwin * (1000 - coreRate) / 1000
  }

  function Use(plugins: seq<Plugin>): nat {
    if plugins == [] then 0 else plugins[0].bytesInFlight + Use(plugins[1..])
  }
}
