/**
 The depths that src/ibverbs_van.h builds: with them everything is delivered whatever the number of
 peers, and the address pool never runs out exactly if no node has more than four.
 */
module RendezvousBuilt {
  import opened Collections
  import opened RdmaPools
  import opened Rendezvous
  import opened RendezvousDepth
  import opened RendezvousLimits
  import opened RendezvousOrder
  import opened RendezvousTurns

  // ---------- the depths of the code ----------

  /** kStartDepth, kWriteDepth, kRxDepth and kReplyDepth. */
  const START_DEPTH: nat := 128
  const WRITE_DEPTH := START_DEPTH
  const RX_DEPTH := 2 * START_DEPTH
  const REPLY_DEPTH := RX_DEPTH

  function DepthOf(kind: Kind): nat {
    match kind
    case StartKind => START_DEPTH
    case WriteKind => WRITE_DEPTH
    case ReceiveKind => RX_DEPTH
    case ReplyKind => REPLY_DEPTH
  }

  ghost predicate Endpoint(all: set<Context>, node: nat, peer: nat) {
    forall kind :: |Of(all, kind, node, peer)| == DepthOf(kind)
  }

  /** Both ends of each connection have contexts of these depths, and each node has its slots. */
  ghost predicate AsBuilt(all: set<Context>, slots: set<Slot>) {
    forall c :: c in all ==>
      Endpoint(all, c.node, c.peer) && Endpoint(all, c.peer, c.node) && |SlotsAt(slots, c.node)| == MAX_ENTRIES
  }

  lemma EndpointHas(all: set<Context>, kind: Kind, node: nat, peer: nat)
    requires Endpoint(all, node, peer)
    ensures Of(all, kind, node, peer) != {}
  {
    assert |Of(all, kind, node, peer)| == DepthOf(kind);
  }

  /** The depths of the code are deep enough, with any number of peers. */
  lemma AsBuiltIsDeep(all: set<Context>, slots: set<Slot>)
    requires AsBuilt(all, slots)
    ensures Deep(all) && Answerable(all) && Linked(all)
  {
    forall c, kind | c in all
      ensures |Of(all, kind, c.node, c.peer)| == DepthOf(kind) == |Of(all, kind, c.peer, c.node)| {
      assert Endpoint(all, c.node, c.peer) && Endpoint(all, c.peer, c.node);
    }
    forall c, kind | c in all
      ensures Of(all, kind, c.node, c.peer) != {} && Of(all, kind, c.peer, c.node) != {} {
      EndpointHas(all, kind, c.node, c.peer);
      EndpointHas(all, kind, c.peer, c.node);
    }
  }

  /** The nodes that can write to a node. */
  function Peers(all: set<Context>, node: nat): set<nat> {
    set c | c in WritesTowards(all, node) :: c.node
  }

  function From(ws: set<Context>, p: nat): set<Context> {
    set c | c in ws && c.node == p
  }

  lemma {:induction false} PerPeer(ws: set<Context>, peers: set<nat>)
    requires forall c :: c in ws ==> c.node in peers
    requires forall p :: p in peers ==> |From(ws, p)| == WRITE_DEPTH
    ensures |ws| == WRITE_DEPTH * |peers|
    decreases |peers|
  {
    if peers == {} {
      assert ws == {};
    } else {
      var p := SomeElement(peers);
      var rest := ws - From(ws, p);
      forall q | q in peers - {p} ensures |From(rest, q)| == WRITE_DEPTH {
        assert From(rest, q) == From(ws, q);
      }
      PerPeer(rest, peers - {p});
      assert ws == rest + From(ws, p);
    }
  }

  lemma WritesPerPeer(all: set<Context>, slots: set<Slot>, node: nat)
    requires AsBuilt(all, slots)
    ensures |WritesTowards(all, node)| == WRITE_DEPTH * |Peers(all, node)|
    ensures Peers(all, node) != {} ==> |SlotsAt(slots, node)| == MAX_ENTRIES
  {
    var ws := WritesTowards(all, node);
    forall p | p in Peers(all, node) ensures |From(ws, p)| == WRITE_DEPTH && |SlotsAt(slots, node)| == MAX_ENTRIES {
      var c :| c in ws && c.node == p;
      assert From(ws, p) == Of(all, WriteKind, p, node);
      assert |Of(all, WriteKind, p, node)| == DepthOf(WriteKind);
      EndpointHas(all, WriteKind, node, p);
      var d := SomeElement(Of(all, WriteKind, node, p));
      assert d in all && d.node == node;
    }
    PerPeer(ws, Peers(all, node));
  }

  /** With the depths of the code, no check fails exactly if no node has more than four peers. */
  lemma FourPeers(all: set<Context>, slots: set<Slot>)
    requires AsBuilt(all, slots)
    ensures Safe(all, slots) <==> forall node :: |Peers(all, node)| <= 4
  {
    AsBuiltIsDeep(all, slots);
    SafeExactly(all, slots);
    forall node ensures |WritesTowards(all, node)| <= |SlotsAt(slots, node)| <==> |Peers(all, node)| <= 4 {
      WritesPerPeer(all, slots, node);
    }
  }

  /** Then, if no node has more than four peers, a run in turn fails no check; and if it cannot go on without
      another send, everything has been delivered. */
  lemma BuiltDelivers(ss: seq<State>, es: seq<Event>, all: set<Context>, slots: set<Slot>)
    requires AsBuilt(all, slots) && (forall node :: |Peers(all, node)| <= 4)
    requires Run(ss, es, all, slots) && Polled(ss, es) && Tame(es)
    ensures forall i :: 0 <= i < |es| ==> Passes(ss[i], es[i])
    ensures Stuck(ss[|es|], LogAt(ss, es, |es|)) ==> AtRest(ss[|es|])
  {
    AsBuiltIsDeep(all, slots);
    FourPeers(all, slots);
    if Stuck(ss[|es|], LogAt(ss, es, |es|)) {
      TurnsDeliver(ss, es, all, slots);
    }
  }

  // ---------- one node and its peers ----------

  function Kindred(node: nat, peer: nat, kind: Kind, n: nat): set<Context> {
    set i | 0 <= i < n :: Context(node, peer, kind, i)
  }

  lemma {:induction false} KindredCount(node: nat, peer: nat, kind: Kind, n: nat)
    ensures |Kindred(node, peer, kind, n)| == n
  {
    if n == 0 {
      assert Kindred(node, peer, kind, 0) == {};
    } else {
      KindredCount(node, peer, kind, n - 1);
      assert Kindred(node, peer, kind, n) == Kindred(node, peer, kind, n - 1) + {Context(node, peer, kind, n - 1)};
    }
  }

  function Side(node: nat, peer: nat): set<Context> {
    Kindred(node, peer, StartKind, START_DEPTH) + Kindred(node, peer, WriteKind, WRITE_DEPTH) +
    Kindred(node, peer, ReceiveKind, RX_DEPTH) + Kindred(node, peer, ReplyKind, REPLY_DEPTH)
  }

  /** Both ends of a connection with node 0. */
  function Spoke(n: nat): set<Context> {
    Side(0, n) + Side(n, 0)
  }

  function UpTo(n: nat): (s: set<nat>)
    ensures |s| == n && forall p :: p in s <==> 1 <= p <= n
  {
    if n == 0 then {} else UpTo(n - 1) + {n}
  }

  /** Node 0 and peers 1 to n, each connected with node 0 alone. */
  function Star(n: nat): set<Context> {
    set p, c | p in UpTo(n) && c in Spoke(p) :: c
  }

  function Entries(node: nat, n: nat): set<Slot> {
    set i | 0 <= i < n :: Slot(node, i)
  }

  lemma {:induction false} EntriesCount(node: nat, n: nat)
    ensures |Entries(node, n)| == n
  {
    if n == 0 {
      assert Entries(node, 0) == {};
    } else {
      EntriesCount(node, n - 1);
      assert Entries(node, n) == Entries(node, n - 1) + {Slot(node, n - 1)};
    }
  }

  function StarSlots(n: nat): set<Slot> {
    if n == 0 then Entries(0, MAX_ENTRIES) else StarSlots(n - 1) + Entries(n, MAX_ENTRIES)
  }

  predicate Joined(n: nat, node: nat, peer: nat) {
    (node == 0 && 1 <= peer <= n) || (peer == 0 && 1 <= node <= n)
  }

  lemma InSide(node: nat, peer: nat, c: Context)
    ensures c in Side(node, peer) <==> c.node == node && c.peer == peer && c.i < DepthOf(c.kind)
  {
    assert c == Context(c.node, c.peer, c.kind, c.i);
  }

  lemma InSpoke(n: nat, c: Context)
    ensures c in Spoke(n) <==> ((c.node == 0 && c.peer == n) || (c.node == n && c.peer == 0)) && c.i < DepthOf(c.kind)
  {
    InSide(0, n, c);
    InSide(n, 0, c);
  }

  lemma InStar(n: nat, c: Context)
    ensures c in Star(n) <==> Joined(n, c.node, c.peer) && c.i < DepthOf(c.kind)
  {
    if c in Star(n) {
      var p :| p in UpTo(n) && c in Spoke(p);
      InSpoke(p, c);
    } else {
      var p := if c.node == 0 then c.peer else c.node;
      InSpoke(p, c);
      assert p !in UpTo(n) || c !in Spoke(p);
    }
  }

  lemma StarEndpoint(n: nat, node: nat, peer: nat)
    requires Joined(n, node, peer)
    ensures Endpoint(Star(n), node, peer)
  {
    forall kind ensures |Of(Star(n), kind, node, peer)| == DepthOf(kind) {
      forall c ensures c in Of(Star(n), kind, node, peer) <==> c in Kindred(node, peer, kind, DepthOf(kind)) {
        InStar(n, c);
        assert c == Context(c.node, c.peer, c.kind, c.i);
      }
      assert Of(Star(n), kind, node, peer) == Kindred(node, peer, kind, DepthOf(kind));
      KindredCount(node, peer, kind, DepthOf(kind));
    }
  }

  lemma {:induction false} InStarSlots(n: nat, t: Slot)
    ensures t in StarSlots(n) <==> t.node <= n && t.idx < MAX_ENTRIES
  {
    assert t == Slot(t.node, t.idx);
    if n > 0 {
      InStarSlots(n - 1, t);
    }
  }

  lemma StarEntries(n: nat, node: nat)
    requires node <= n
    ensures |SlotsAt(StarSlots(n), node)| == MAX_ENTRIES
  {
    forall t ensures t in SlotsAt(StarSlots(n), node) <==> t in Entries(node, MAX_ENTRIES) {
      InStarSlots(n, t);
      assert t == Slot(t.node, t.idx);
    }
    assert SlotsAt(StarSlots(n), node) == Entries(node, MAX_ENTRIES);
    EntriesCount(node, MAX_ENTRIES);
  }

  lemma StarAsBuilt(n: nat)
    ensures AsBuilt(Star(n), StarSlots(n))
  {
    forall c | c in Star(n)
      ensures Endpoint(Star(n), c.node, c.peer) && Endpoint(Star(n), c.peer, c.node)
      ensures |SlotsAt(StarSlots(n), c.node)| == MAX_ENTRIES {
      InStar(n, c);
      StarEndpoint(n, c.node, c.peer);
      StarEndpoint(n, c.peer, c.node);
      StarEntries(n, c.node);
    }
  }

  lemma StarPeers(n: nat, node: nat)
    ensures node == 0 ==> |Peers(Star(n), node)| == n
    ensures node != 0 ==> |Peers(Star(n), node)| <= 1
  {
    forall p: nat ensures p in Peers(Star(n), node) <==> Joined(n, p, node) {
      InStar(n, Context(p, node, WriteKind, 0));
      if p in Peers(Star(n), node) {
        var c :| c in WritesTowards(Star(n), node) && c.node == p;
        InStar(n, c);
      } else {
        assert Context(p, node, WriteKind, 0) !in WritesTowards(Star(n), node);
      }
    }
    if node == 0 {
      assert Peers(Star(n), node) == UpTo(n);
    } else {
      assert Peers(Star(n), node) <= {0};
      SubsetSmaller(Peers(Star(n), node), {0});
    }
  }

  lemma StarFewPeers(n: nat)
    ensures (forall node :: |Peers(Star(n), node)| <= 4) <==> n <= 4
  {
    StarPeers(n, 0);
    forall node ensures node != 0 ==> |Peers(Star(n), node)| <= 1 {
      StarPeers(n, node);
    }
  }

  /** A node with n peers is safe for n up to four, and not for more. */
  lemma StarIsSafe(n: nat)
    ensures Safe(Star(n), StarSlots(n)) <==> n <= 4
  {
    StarAsBuilt(n);
    FourPeers(Star(n), StarSlots(n));
    StarFewPeers(n);
  }
}
