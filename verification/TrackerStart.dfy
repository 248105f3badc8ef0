/**
 The start protocol of tracker.py: assign_rank, and the batch assignment in accept_slaves.

 A slave is told which of its neighbours already wait for it, connects to those, and waits
 for the others.  Over every start order, a waiting slave's counter is the number of its
 neighbours still to start, each link is set up once, by the later of its two ends, and
 nobody waits once all have started.
 */
module TrackerStart {
  import opened Collections
  import opened TrackerTopology

  // ---------- neighbours ----------

  datatype Maps = Maps(tree: map<int, seq<int>>, parent: map<int, int>, ring: map<int, (int, int)>)

  /** The set nnset that assign_rank builds. */
  function LinksTo(m: Maps, rank: int): set<int>
    requires rank in m.tree && rank in m.ring
  {
    var (rprev, rnext) := m.ring[rank];
    (set x | x in m.tree[rank])
    + (if rprev != -1 && rprev != rank then {rprev} else {})
    + (if rnext != -1 && rnext != rank then {rnext} else {})
  }

  /** All ranks have neighbours, being linked is mutual, and nobody is linked to itself. */
  ghost predicate Mutual(m: Maps, n: nat) {
    && Numbered(m.tree.Keys, n) && Numbered(m.ring.Keys, n) && Numbered(m.parent.Keys, n)
    && forall a, b :: Linked(m, a, b) ==> a != b && Linked(m, b, a)
  }

  predicate Linked(m: Maps, a: int, b: int) {
    a in m.tree && a in m.ring && b in LinksTo(m, a)
  }

  lemma TreeNeighbour(tree: map<int, seq<int>>, rank: map<int, int>, s: seq<int>, n: nat, a: int, b: int)
    requires TreeRenamed(tree, rank, s, n) && 0 <= a < n
    ensures b in tree[a] <==> 0 <= b < n && (ChildOf(s[b], s[a]) || ChildOf(s[a], s[b]))
  {
    var nb := Neighbors(s[a], n);
    assert tree[a] == MapSeq(rank, nb);
    if b in tree[a] {
      var j :| 0 <= j < |nb| && tree[a][j] == b;
      assert nb[j] in rank && s[b] == nb[j];
      NeighborsAreTreeLinks(s[a], n, s[b]);
    }
    if 0 <= b < n {
      NeighborsAreTreeLinks(s[a], n, s[b]);
      if s[b] in nb {
        var j :| 0 <= j < |nb| && nb[j] == s[b];
        assert tree[a][j] == rank[s[b]] == b;
      }
    }
  }

  lemma TreeMutual(tree: map<int, seq<int>>, rank: map<int, int>, s: seq<int>, n: nat, a: int, b: int)
    requires TreeRenamed(tree, rank, s, n) && 0 <= a < n && b in tree[a]
    ensures 0 <= b < n && b != a && a in tree[b]
  {
    TreeNeighbour(tree, rank, s, n, a, b);
    TreeNeighbour(tree, rank, s, n, b, a);
  }

  lemma RingMutual(ring: map<int, (int, int)>, n: nat, a: int, b: int)
    requires RingRenamed(ring, n) && 0 <= a < n && b != a && (b == ring[a].0 || b == ring[a].1)
    ensures 0 <= b < n && (a == ring[b].0 || a == ring[b].1)
  {
    assert ring[a] == (Prev(a, n), Next(a, n));
    assert ring[b] == (Prev(b, n), Next(b, n));
  }

  lemma LinksMutual(m: Maps, rank: map<int, int>, s: seq<int>, n: nat, a: int, b: int)
    requires TreeRenamed(m.tree, rank, s, n) && RingRenamed(m.ring, n) && Linked(m, a, b)
    ensures a != b && Linked(m, b, a)
  {
    if b in m.tree[a] {
      TreeMutual(m.tree, rank, s, n, a, b);
    } else {
      RingMutual(m.ring, n, a, b);
    }
  }

  lemma LinkMapsMutual(m: Maps, rank: map<int, int>, s: seq<int>, n: nat)
    requires TreeRenamed(m.tree, rank, s, n) && Numbered(m.parent.Keys, n) && RingRenamed(m.ring, n)
    ensures Mutual(m, n)
  {
    forall a, b | Linked(m, a, b) ensures a != b && Linked(m, b, a) {
      LinksMutual(m, rank, s, n, a, b);
    }
  }

  /** Who ought to be linked, where s gives each rank its place in the heap: parent and child, and ranks that
      follow each other around. */
  ghost predicate Joined(s: seq<int>, a: int, b: int) {
    var n := |s|;
    && 0 <= a < n && 0 <= b < n && a != b
    && (ChildOf(s[a], s[b]) || ChildOf(s[b], s[a]) || Following(a, b, n) || Following(b, a, n))
  }

  /** b is the rank after a, around. */
  ghost predicate Following(a: int, b: int, n: nat) {
    b == if a + 1 == n then 0 else a + 1
  }

  /** The maps link exactly those; s is a permutation that leaves the root in its place. */
  ghost predicate Wired(m: Maps, s: seq<int>, n: nat) {
    && n > 0 && Arranges(s, n) && s[0] == 0 && Mutual(m, n)
    && forall a, b {:trigger Linked(m, a, b)} :: Linked(m, a, b) <==> Joined(s, a, b)
  }

  /** What the maps say of rank a. */
  ghost predicate Charted(m: Maps, s: seq<int>, a: int) {
    var n := |s|;
    && 0 <= a < n && a in m.tree && a in m.parent && a in m.ring
    && (forall b :: b in m.tree[a] <==> 0 <= b < n && (ChildOf(s[b], s[a]) || ChildOf(s[a], s[b])))
    && (if s[a] == 0 then m.parent[a] == -1 else 0 <= m.parent[a] < n && ChildOf(s[a], s[m.parent[a]]))
    && Following(m.ring[a].0, a, n) && Following(a, m.ring[a].1, n)
  }

  lemma LinkMapsCharted(m: Maps, rank: map<int, int>, s: seq<int>, n: nat, a: int)
    requires TreeRenamed(m.tree, rank, s, n) && ParentsRenamed(m.parent, rank, s, n) && RingRenamed(m.ring, n)
    requires 0 <= a < n
    ensures Charted(m, s, a)
  {
    assert a in m.tree.Keys && a in m.parent.Keys && a in m.ring.Keys;
    forall b ensures b in m.tree[a] <==> 0 <= b < n && (ChildOf(s[b], s[a]) || ChildOf(s[a], s[b])) {
      TreeNeighbour(m.tree, rank, s, n, a, b);
    }
    assert m.ring[a] == (Prev(a, n), Next(a, n));
    assert m.parent[a] == if s[a] == 0 then -1 else rank[ParentOf(s[a])];
  }

  lemma RingJoins(ring: map<int, (int, int)>, n: nat, a: int, b: int)
    requires RingRenamed(ring, n) && 0 <= a < n && 0 <= b < n
    ensures (b == ring[a].0 || b == ring[a].1) <==> Following(a, b, n) || Following(b, a, n)
  {
    assert ring[a] == (Prev(a, n), Next(a, n));
  }

  lemma LinkedIsJoined(m: Maps, rank: map<int, int>, s: seq<int>, n: nat, a: int, b: int)
    requires TreeRenamed(m.tree, rank, s, n) && RingRenamed(m.ring, n)
    ensures Linked(m, a, b) <==> Joined(s, a, b)
  {
    if Linked(m, a, b) {
      LinksMutual(m, rank, s, n, a, b);
    }
    if 0 <= a < n && 0 <= b < n && a != b {
      assert a in m.tree.Keys && a in m.ring.Keys;
      TreeNeighbour(m.tree, rank, s, n, a, b);
      RingJoins(m.ring, n, a, b);
    }
  }

  /** The link maps link exactly the tree and the ring. */
  lemma LinkMapsWired(m: Maps, rank: map<int, int>, s: seq<int>, n: nat)
    requires TreeRenamed(m.tree, rank, s, n) && Numbered(m.parent.Keys, n) && RingRenamed(m.ring, n) && n > 0
    ensures Wired(m, s, n)
  {
    LinkMapsMutual(m, rank, s, n);
    forall a, b ensures Linked(m, a, b) <==> Joined(s, a, b) {
      LinkedIsJoined(m, rank, s, n, a, b);
    }
  }

  // ---------- what a start order leaves behind ----------

  /** How many neighbours of r have not started. */
  ghost function Missing(m: Maps, order: seq<int>, r: int): nat
    requires r in m.tree && r in m.ring
  {
    |LinksTo(m, r) - Elements(order)|
  }

  ghost predicate InMaps(m: Maps, order: seq<int>) {
    forall i :: 0 <= i < |order| ==> order[i] in m.tree && order[i] in m.ring
  }

  /** The counters and the links after a start order, as the tracker computes them: a
      starter connects to the neighbours it finds waiting. */
  datatype Progress = Progress(table: map<int, int>, links: set<(int, int)>)

  ghost function AfterStarts(m: Maps, order: seq<int>): Progress
    requires InMaps(m, order)
  {
    if order == [] then Progress(map[], {})
    else
      var k := |order| - 1;
      StepProgress(m, AfterStarts(m, order[..k]), order[k])
  }

  ghost function StepProgress(m: Maps, was: Progress, rank: int): Progress
    requires rank in m.tree && rank in m.ring
  {
    var conset := LinksTo(m, rank) * was.table.Keys;
    Progress(TableStep(was.table, conset, rank, |LinksTo(m, rank)| - |conset|),
             was.links + (set x | x in conset :: (rank, x)))
  }

  /** The links that ought to be there: to the neighbours that started before. */
  ghost function LinksOf(m: Maps, order: seq<int>): set<(int, int)> {
    if order == [] then {}
    else
      var k := |order| - 1;
      LinksOf(m, order[..k]) + (set x | x in Elements(order[..k]) && Linked(m, order[k], x) :: (order[k], x))
  }

  /** b started before a. */
  ghost predicate StartedBefore(order: seq<int>, b: int, a: int) {
    exists i, j :: 0 <= i < j < |order| && order[i] == b && order[j] == a
  }

  lemma {:induction false} LinkedByLater(m: Maps, order: seq<int>, a: int, b: int)
    ensures (a, b) in LinksOf(m, order) <==> StartedBefore(order, b, a) && Linked(m, a, b)
  {
    if order != [] {
      var k := |order| - 1;
      var front := order[..k];
      LinkedByLater(m, front, a, b);
      if StartedBefore(front, b, a) {
        var i, j :| 0 <= i < j < |front| && front[i] == b && front[j] == a;
        assert order[i] == b && order[j] == a;
      }
      if StartedBefore(order, b, a) && !(order[k] == a && b in front) {
        var i, j :| 0 <= i < j < |order| && order[i] == b && order[j] == a;
        assert front[i] == b && (j < k ==> front[j] == a);
      }
      if order[k] == a && b in front {
        var i :| 0 <= i < k && front[i] == b;
        assert order[i] == b;
      }
    }
  }

  /** Each link has one maker, the later of its two ends. */
  lemma LinkMadeByLater(m: Maps, s: seq<int>, n: nat, order: seq<int>, a: int, b: int)
    requires Wired(m, s, n)
    ensures (a, b) in LinksOf(m, order) <==> StartedBefore(order, b, a) && Joined(s, a, b)
  {
    LinkedByLater(m, order, a, b);
  }

  /** Once all have started, every tree link and every ring link has been made exactly once. */
  lemma EveryLinkOnce(m: Maps, s: seq<int>, n: nat, order: seq<int>, a: int, b: int)
    requires Wired(m, s, n) && Arranges(order, n) && Joined(s, a, b)
    ensures (a, b) in LinksOf(m, order) <==> (b, a) !in LinksOf(m, order)
  {
    LinkMadeByLater(m, s, n, order, a, b);
    LinkMadeByLater(m, s, n, order, b, a);
    ArrangesAll(order, n, a);
    ArrangesAll(order, n, b);
    var i :| 0 <= i < n && order[i] == a;
    var j :| 0 <= j < n && order[j] == b;
    if i < j {
      assert StartedBefore(order, a, b);
    } else {
      assert StartedBefore(order, b, a);
    }
  }

  /** Every tree link and every ring link is there once, and no other. */
  ghost predicate Meshed(links: set<(int, int)>, s: seq<int>) {
    && (forall a, b :: (a, b) in links ==> Joined(s, a, b))
    && (forall a, b :: Joined(s, a, b) ==> ((a, b) in links <==> (b, a) !in links))
  }

  /** How many neighbours r waits for: none before it starts, then those still missing. */
  ghost function Waits(m: Maps, order: seq<int>, r: int): nat
    requires r in m.tree && r in m.ring
  {
    if r in order then Missing(m, order, r) else 0
  }

  function At(t: map<int, int>, r: int): int {
    if r in t then t[r] else 0
  }

  /** The counters are right: exactly those who wait for somebody are in the table. */
  ghost predicate Right(t: map<int, int>, m: Maps, n: nat, order: seq<int>)
    requires Mutual(m, n)
  {
    && (forall r :: r in t ==> 0 <= r < n && t[r] > 0)
    && (forall r :: 0 <= r < n ==> At(t, r) == Waits(m, order, r))
  }

  // ---------- one start, on sets ----------

  /** How one more start changes who is missing to whom. */
  lemma MissingStep(m: Maps, n: nat, order: seq<int>, rank: int, r: int)
    requires Mutual(m, n) && rank in m.tree && rank in m.ring && rank !in order
    requires r in m.tree && r in m.ring
    ensures Missing(m, order + [rank], r) == Missing(m, order, r) - if r in LinksTo(m, rank) then 1 else 0
  {
    assert Linked(m, r, rank) <==> Linked(m, rank, r);
    var was := LinksTo(m, r) - Elements(order);
    assert LinksTo(m, r) - Elements(order + [rank]) == was - {rank};
    assert rank in was <==> r in LinksTo(m, rank);
  }

  lemma MissingOwn(m: Maps, n: nat, order: seq<int>, rank: int)
    requires Mutual(m, n) && rank in m.tree && rank in m.ring
    ensures Missing(m, order + [rank], rank) == |LinksTo(m, rank)| - |LinksTo(m, rank) * Elements(order)|
  {
    var all, e := LinksTo(m, rank), Elements(order);
    assert !Linked(m, rank, rank);
    assert all == (all - e) + (all * e);
    assert all - Elements(order + [rank]) == all - e;
  }

  // ---------- the tracker ----------

  class SlaveEntry {
    /** Hosts are only compared. */
    const host: int
    const jobid: int
    var rank: int
    var waitAccept: int

    constructor (host: int, jobid: int)
      ensures this.host == host && this.jobid == jobid && rank == -1 && waitAccept == 0
    {
      this.host, this.jobid := host, jobid;
      rank, waitAccept := -1, 0;
    }
  }

  /** The job id "NULL". */
  const NULL_JOB := 0

  /** The ranks below n. */
  ghost function Upto(n: nat): (s: seq<int>)
    ensures |s| == n
  {
    if n == 0 then [] else Upto(n - 1) + [n - 1]
  }

  /** The ranks from i on. */
  function From(i: nat, n: nat): (s: seq<int>)
    ensures |s| == if i < n then n - i else 0
    decreases n - i
  {
    if i >= n then [] else [i] + From(i + 1, n)
  }

  lemma FromRest(i: nat, n: nat)
    requires i < n
    ensures From(i, n)[0] == i && From(i, n)[1..] == From(i + 1, n)
  {
  }

  lemma {:induction false} UptoBelow(n: nat)
    ensures forall x :: x in Upto(n) <==> 0 <= x < n
  {
    if n > 0 {
      UptoBelow(n - 1);
    }
  }

  lemma {:induction false} UptoArranges(n: nat)
    ensures Arranges(Upto(n), n)
  {
    UptoBelow(n);
    if n > 0 {
      UptoArranges(n - 1);
      var front := Upto(n - 1);
      assert forall j :: 0 <= j < n - 1 ==> front[j] in front;
    }
  }

  /** The first i slaves of a list have their places as ranks. */
  ghost predicate Ranked(s: seq<SlaveEntry>, i: nat)
    requires i <= |s|
    reads Firsts(s, i)`rank
  {
    forall j :: 0 <= j < i ==> s[j].rank == j
  }

  lemma RankedMore(s: seq<SlaveEntry>, i: nat)
    requires i < |s| && Ranked(s, i) && s[i].rank == i
    ensures Ranked(s, i + 1)
  {
  }

  ghost function Members(s: seq<SlaveEntry>): set<SlaveEntry> {
    set x | x in s
  }

  /** No slave is listed twice. */
  ghost predicate Separate(s: seq<SlaveEntry>) {
    s == [] || (s[|s| - 1] !in s[..|s| - 1] && Separate(s[..|s| - 1]))
  }

  /** The first i slaves of a list. */
  ghost function Firsts(s: seq<SlaveEntry>, i: nat): (r: set<SlaveEntry>)
    requires i <= |s|
    ensures r <= Members(s)
    ensures forall j :: 0 <= j < i ==> s[j] in r
  {
    if i == 0 then {} else Firsts(s, i - 1) + {s[i - 1]}
  }

  lemma {:induction false} SeparateAt(s: seq<SlaveEntry>, i: nat)
    requires i < |s| && Separate(s)
    ensures s[i] !in s[..i]
  {
    var k := |s| - 1;
    if i < k {
      SeparateAt(s[..k], i);
      assert s[..k][..i] == s[..i];
    }
  }

  lemma {:induction false} FirstsIn(s: seq<SlaveEntry>, i: nat)
    requires i <= |s|
    ensures Firsts(s, i) == Members(s[..i])
  {
    if i > 0 {
      FirstsIn(s, i - 1);
      assert s[..i] == s[..i - 1] + [s[i - 1]];
    }
  }

  lemma NotYet(s: seq<SlaveEntry>, i: nat)
    requires i < |s| && Separate(s)
    ensures s[i] !in Firsts(s, i)
  {
    SeparateAt(s, i);
    FirstsIn(s, i);
  }

  // ---------- the slaves that are pending, sorted by host ----------

  /** Behind all whose host is not greater. */
  function InsertByHost(s: seq<SlaveEntry>, x: SlaveEntry): (r: seq<SlaveEntry>)
    ensures |r| == |s| + 1
  {
    var k := |s| - 1;
    if s == [] || s[k].host <= x.host then s + [x] else InsertByHost(s[..k], x) + [s[k]]
  }

  /** Sorted by host; those of one host stay in order. */
  function SortByHost(s: seq<SlaveEntry>): (r: seq<SlaveEntry>)
    ensures |r| == |s|
  {
    if s == [] then [] else InsertByHost(SortByHost(s[..|s| - 1]), s[|s| - 1])
  }

  predicate ByHost(s: seq<SlaveEntry>) {
    forall i, j :: 0 <= i < j < |s| ==> s[i].host <= s[j].host
  }

  function OfHost(s: seq<SlaveEntry>, host: int): seq<SlaveEntry> {
    if s == [] then [] else OfHost(s[..|s| - 1], host) + if s[|s| - 1].host == host then [s[|s| - 1]] else []
  }

  lemma {:induction false} InsertPermutes(s: seq<SlaveEntry>, x: SlaveEntry)
    ensures multiset(InsertByHost(s, x)) == multiset(s) + multiset{x}
  {
    var k := |s| - 1;
    if s != [] && s[k].host > x.host {
      InsertPermutes(s[..k], x);
      assert s == s[..k] + [s[k]];
    }
  }

  lemma Inserted(s: seq<SlaveEntry>, x: SlaveEntry, y: SlaveEntry)
    ensures y in InsertByHost(s, x) <==> y in s || y == x
  {
    InsertPermutes(s, x);
    assert y in InsertByHost(s, x) <==> y in multiset(InsertByHost(s, x));
    assert y in s <==> y in multiset(s);
  }

  lemma {:induction false} InsertSorts(s: seq<SlaveEntry>, x: SlaveEntry)
    requires ByHost(s)
    ensures ByHost(InsertByHost(s, x))
  {
    var k := |s| - 1;
    if s != [] && s[k].host > x.host {
      InsertSorts(s[..k], x);
      var r := InsertByHost(s[..k], x);
      forall i | 0 <= i < |r| ensures r[i].host <= s[k].host {
        Inserted(s[..k], x, r[i]);
      }
    }
  }

  lemma {:induction false} InsertSeparate(s: seq<SlaveEntry>, x: SlaveEntry)
    requires Separate(s) && x !in s
    ensures Separate(InsertByHost(s, x))
  {
    var k := |s| - 1;
    if s != [] && s[k].host > x.host {
      InsertSeparate(s[..k], x);
      var r := InsertByHost(s[..k], x);
      Inserted(s[..k], x, s[k]);
      assert (r + [s[k]])[..|r|] == r;
    } else {
      assert (s + [x])[..|s|] == s;
    }
  }

  lemma {:induction false} InsertStable(s: seq<SlaveEntry>, x: SlaveEntry, host: int)
    requires ByHost(s)
    ensures OfHost(InsertByHost(s, x), host) == OfHost(s, host) + if x.host == host then [x] else []
  {
    var k := |s| - 1;
    if s == [] || s[k].host <= x.host {
      assert (s + [x])[..|s|] == s;
    } else {
      InsertStable(s[..k], x, host);
      var r := InsertByHost(s[..k], x);
      assert (r + [s[k]])[..|r|] == r;
    }
  }

  /** The sort by host: sorted, a permutation, and stable. */
  lemma {:induction false} SortSorts(s: seq<SlaveEntry>)
    ensures ByHost(SortByHost(s)) && multiset(SortByHost(s)) == multiset(s)
    ensures forall host :: OfHost(SortByHost(s), host) == OfHost(s, host)
  {
    if s != [] {
      var k := |s| - 1;
      SortSorts(s[..k]);
      var r := SortByHost(s[..k]);
      assert s == s[..k] + [s[k]];
      InsertSorts(r, s[k]);
      InsertPermutes(r, s[k]);
      forall host ensures OfHost(SortByHost(s), host) == OfHost(s, host) {
        InsertStable(r, s[k], host);
      }
    }
  }

  lemma {:induction false} SortSeparate(s: seq<SlaveEntry>)
    requires Separate(s)
    ensures Separate(SortByHost(s))
  {
    if s != [] {
      var k := |s| - 1;
      SortSeparate(s[..k]);
      SortSorts(s[..k]);
      SameMembers(SortByHost(s[..k]), s[..k]);
      assert s[k] !in Members(s[..k]);
      InsertSeparate(SortByHost(s[..k]), s[k]);
    }
  }

  lemma SameMembers(s: seq<SlaveEntry>, t: seq<SlaveEntry>)
    requires multiset(s) == multiset(t)
    ensures Members(s) == Members(t)
  {
    forall x ensures x in s <==> x in t {
      assert x in s <==> x in multiset(s);
      assert x in t <==> x in multiset(t);
    }
  }

  lemma SameMap<K(!new), V>(a: map<K, V>, b: map<K, V>)
    requires (forall r :: r in a <==> r in b) && forall r :: r in a ==> a[r] == b[r]
    ensures a == b
  {
    assert a.Keys == b.Keys;
  }

  class RabitTracker {
    const nslave: nat
    const maps: Maps
    /** The place of each rank in the heap. */
    ghost const labels: seq<int>
    var waitConn: map<int, SlaveEntry>
    /** The ranks that have started, in order, and what that should have led to. */
    ghost var order: seq<int>
    ghost var progress: Progress
    /** All slaves that have been given a rank. */
    ghost var entries: set<SlaveEntry>
    var todo: seq<int>
    var pending: seq<SlaveEntry>
    var jobMap: map<int, int>

    /** Every waiting slave is filed under its own rank. */
    ghost predicate Filed()
      reads this`waitConn, this`entries, entries
    {
      forall r :: r in waitConn ==> waitConn[r] in entries && waitConn[r].rank == r
    }

    /** How many neighbours each waiting rank waits for. */
    ghost function Counts(): map<int, int>
      requires Filed()
      reads this`waitConn, this`entries, entries
    {
      map r | r in waitConn :: waitConn[r].waitAccept
    }

    ghost predicate Valid()
      reads `waitConn, `order, `progress, `entries, entries
    {
      && Wired(maps, labels, nslave) && (forall a :: 0 <= a < nslave ==> Charted(maps, labels, a))
      && Ranks(order, nslave) && InMaps(maps, order)
      && progress == AfterStarts(maps, order)
      && Filed() && Counts() == progress.table
    }

    constructor (nslave: nat)
      requires nslave > 0
      ensures Valid() && order == [] && waitConn == map[] && this.nslave == nslave && entries == {}
      ensures todo == From(0, nslave) && pending == [] && jobMap == map[]
      ensures Arranges(labels, nslave) && labels[0] == 0
      ensures forall a, b :: Linked(maps, a, b) <==>
        && 0 <= a < nslave && 0 <= b < nslave && a != b
        && (|| ChildOf(labels[a], labels[b]) || ChildOf(labels[b], labels[a])
            || b == (a + 1) % nslave || a == (b + 1) % nslave)
    {
      var tree, parent, ring;
      ghost var rank, s;
      tree, parent, ring, rank, s := GetLinkMap(nslave);
      this.nslave := nslave;
      maps := Maps(tree, parent, ring);
      waitConn, order, progress, entries := map[], [], Progress(map[], {}), {};
      todo, pending, jobMap := From(0, nslave), [], map[];
      labels := s;
      LinkMapsWired(Maps(tree, parent, ring), rank, s, nslave);
      forall a, b | 0 <= a < nslave && 0 <= b < nslave ensures Following(a, b, nslave) <==> b == (a + 1) % nslave {
        RingSteps(a, nslave);
      }
      forall a | 0 <= a < nslave ensures Charted(Maps(tree, parent, ring), s, a) {
        LinkMapsCharted(Maps(tree, parent, ring), rank, s, nslave, a);
      }
    }

    /** All waiting neighbours count one less to wait for; those with none left are returned. */
    method CountDown(conset: set<int>) returns (rmset: set<int>)
      requires conset <= waitConn.Keys && Filed()
      modifies entries`waitAccept
      ensures forall r :: r in waitConn ==>
        waitConn[r].waitAccept == old(waitConn[r].waitAccept) - if r in conset then 1 else 0
      ensures forall r :: r in rmset <==> r in conset && waitConn[r].waitAccept == 0
    {
      rmset := {};
      var rest := conset;
      while rest != {}
        invariant rest <= conset
        invariant forall r :: r in waitConn ==>
          waitConn[r].waitAccept == old(waitConn[r].waitAccept) - if r in conset && r !in rest then 1 else 0
        invariant forall r :: r in rmset <==> r in conset && r !in rest && waitConn[r].waitAccept == 0
        decreases rest
      {
        ghost var some := SomeElement(rest);
        var r :| r in rest;
        assert forall q :: q in waitConn && q != r ==> waitConn[q] != waitConn[r];
        waitConn[r].waitAccept := waitConn[r].waitAccept - 1;
        if waitConn[r].waitAccept == 0 {
          rmset := rmset + {r};
        }
        rest := rest - {r};
      }
    }

    /** The batch assignment: once as many slaves are pending as there are ranks, each gets the
        next rank, in whatever order they were sorted.  After it nobody is left waiting. */
    method StartAll(batch: seq<SlaveEntry>)
      requires Valid() && todo == From(0, nslave) && order == [] && entries == {}
      requires |batch| == nslave && Separate(batch)
      modifies `waitConn, `order, `progress, `entries, `todo, `jobMap, Members(batch)
      ensures Valid() && order == Upto(nslave) && todo == [] && waitConn == map[] && Ranked(batch, nslave)
      ensures Meshed(progress.links, labels)
    {
      AssignAll(batch);
      UptoArranges(nslave);
      AllStarted(maps, labels, nslave, order);
      assert Counts() == map[];
      assert waitConn.Keys == Counts().Keys;
    }

    /** A slave that starts is pending until as many are as there are ranks; then all of them start,
        sorted by host. */
    method Accept(s: SlaveEntry)
      requires Valid() && todo == From(0, nslave) && order == [] && entries == {}
      requires waitConn == map[]
      requires |pending| < nslave && Separate(pending + [s])
      modifies `waitConn, `order, `progress, `entries, `todo, `jobMap, `pending, Members(pending + [s])
      ensures Valid() && pending == old(pending) + [s] && waitConn == map[]
      ensures |pending| < nslave ==> order == [] && todo == old(todo) && entries == {}
      ensures |pending| == nslave ==> order == Upto(nslave) && todo == [] && Ranked(SortByHost(pending), nslave)
      ensures |pending| == nslave ==> Meshed(progress.links, labels)
    {
      pending := pending + [s];
      if |pending| == |todo| {
        StartPending();
      }
    }

    method StartPending()
      requires Valid() && todo == From(0, nslave) && order == [] && entries == {}
      requires |pending| == nslave && Separate(pending)
      modifies `waitConn, `order, `progress, `entries, `todo, `jobMap, Members(pending)
      ensures Valid() && order == Upto(nslave) && todo == [] && waitConn == map[] && Ranked(SortByHost(pending), nslave)
      ensures Meshed(progress.links, labels)
    {
      SortSorts(pending);
      SortSeparate(pending);
      SameMembers(SortByHost(pending), pending);
      StartAll(SortByHost(pending));
    }

    /** The loop that hands out the ranks. */
    method AssignAll(batch: seq<SlaveEntry>)
      requires Valid() && todo == From(0, nslave) && order == [] && entries == {}
      requires |batch| == nslave && Separate(batch)
      modifies `waitConn, `order, `progress, `entries, `todo, `jobMap, Members(batch)
      ensures Valid() && order == Upto(nslave) && todo == [] && Ranked(batch, nslave)
    {
      for i := 0 to nslave
        invariant Valid() && Ranked(batch, i) && entries == Firsts(batch, i)
        invariant order == Upto(i) && todo == From(i, nslave)
      {
        AssignAt(batch, i);
      }
    }

    method AssignAt(batch: seq<SlaveEntry>, i: nat)
      requires Valid() && i < nslave == |batch| && Separate(batch) && Ranked(batch, i) && entries == Firsts(batch, i)
      requires order == Upto(i) && todo == From(i, nslave)
      modifies `waitConn, `order, `progress, `entries, `todo, `jobMap, Members(batch)
      ensures Valid() && Ranked(batch, i + 1) && entries == Firsts(batch, i + 1)
      ensures order == Upto(i + 1) && todo == From(i + 1, nslave)
    {
      NotYet(batch, i);
      FromRest(i, nslave);
      UptoBelow(i);
      AssignNext(batch[i]);
      RankedMore(batch, i);
    }

    /** The next rank, noted under the job id if there is one. */
    method TakeRank(jobid: int) returns (rank: int)
      requires todo != []
      modifies `todo, `jobMap
      ensures rank == old(todo)[0] && todo == old(todo)[1..]
      ensures jobMap == if jobid == NULL_JOB then old(jobMap) else old(jobMap)[jobid := rank]
    {
      rank := todo[0];
      todo := todo[1..];
      if jobid != NULL_JOB {
        jobMap := jobMap[jobid := rank];
      }
    }

    /** One round of it. */
    method AssignNext(s: SlaveEntry)
      requires Valid() && s !in entries && todo != [] && todo[0] !in order
      requires 0 <= todo[0] < nslave
      modifies `waitConn, `order, `progress, `entries, `todo, `jobMap, s, entries`waitAccept
      ensures Valid() && order == old(order) + [old(todo)[0]] && todo == old(todo)[1..]
      ensures s.rank == old(todo)[0] && entries == old(entries) + {s}
    {
      var rank := TakeRank(s.jobid);
      var told, conset, accepts := AssignRank(s, rank);
    }

    /** What a starter is sent first: its rank, its parent, how many ranks there are, its neighbours in the
        tree in some order, and those before and after it on the ring, if there are any. */
    method Introduce(rank: int) returns (told: seq<int>)
      requires Valid() && 0 <= rank < nslave
      ensures |told| >= 6 && told[0] == rank && told[2] == nslave && told[3] == |told| - 6
      ensures if labels[rank] == 0 then told[1] == -1
              else 0 <= told[1] < nslave && ChildOf(labels[rank], labels[told[1]])
      ensures var tree := told[4..|told| - 2];
        Unrepeated(tree) && forall b :: b in tree <==>
          0 <= b < nslave && (ChildOf(labels[b], labels[rank]) || ChildOf(labels[rank], labels[b]))
      ensures var rprev, rnext := told[|told| - 2], told[|told| - 1];
        if nslave == 1 then rprev == rnext == -1 else Following(rprev, rank, nslave) && Following(rank, rnext, nslave)
    {
      assert Charted(maps, labels, rank);
      var tree := ListOf(set x | x in maps.tree[rank]);
      var (rprev, rnext) := maps.ring[rank];
      told := [rank, maps.parent[rank], nslave, |tree|] + tree
        + [if rprev != -1 && rprev != rank then rprev else -1, if rnext != -1 && rnext != rank then rnext else -1];
      assert told[4..|told| - 2] == tree;
    }

    /** assign_rank for a slave whose links all have to be set up and whose connections all
        succeed, and the bookkeeping after it.  The slave is told to connect to the neighbours that have
        started, and how many others will connect to it. */
    method AssignRank(s: SlaveEntry, rank: int) returns (told: seq<int>, conset: set<int>, accepts: int)
      requires Valid() && 0 <= rank < nslave && rank !in order && s !in entries
      modifies `waitConn, `order, `progress, `entries, s, entries`waitAccept
      ensures Valid() && order == old(order) + [rank] && s.rank == rank && entries == old(entries) + {s}
      ensures forall x :: x in conset <==> x in old(order) && Joined(labels, rank, x)
      ensures accepts == |Others(labels, nslave, old(order), rank)|
      ensures progress.links == old(progress).links + set x | x in conset :: (rank, x)
    {
      told := Introduce(rank);
      ghost var after := AfterOneMore(maps, nslave, order, rank);
      Told(maps, labels, nslave, order, rank);
      assert Counts().Keys == waitConn.Keys;
      var nnset := LinksTo(maps, rank);
      conset := nnset * waitConn.Keys;
      accepts := |nnset| - |conset|;
      Rebook(s, rank, conset, accepts, order + [rank], after);
    }

    /** The bookkeeping of a start: those found waiting count down, and the starter waits. */
    method Rebook(s: SlaveEntry, rank: int, conset: set<int>, accepts: int, ghost o: seq<int>, ghost p: Progress)
      requires Filed() && s !in entries && conset <= waitConn.Keys
      modifies `waitConn, `order, `progress, `entries, s, entries`waitAccept
      ensures Filed() && s.rank == rank && entries == old(entries) + {s} && order == o && progress == p
      ensures Counts() == TableStep(old(Counts()), conset, rank, accepts)
    {
      s.rank := rank;
      PopReady(conset);
      FileSlave(s, accepts, o, p);
    }

    /** The slave waits, under its rank, if somebody is still to connect to it. */
    method FileSlave(s: SlaveEntry, accepts: int, ghost o: seq<int>, ghost p: Progress)
      requires Filed() && s !in entries
      modifies `waitConn, `order, `progress, `entries, s`waitAccept
      ensures Filed() && entries == old(entries) + {s} && order == o && progress == p
      ensures Counts() == if accepts > 0 then old(Counts())[s.rank := accepts] else old(Counts())
    {
      ghost var was := Counts();
      order, progress := o, p;
      s.waitAccept := accepts;
      entries := entries + {s};
      if s.waitAccept > 0 {
        waitConn := waitConn[s.rank := s];
        ghost var now := Counts();
        forall r ensures r in now <==> r in was || r == s.rank {
        }
        forall r | r in now ensures now[r] == was[s.rank := accepts][r] {
        }
        SameMap(now, was[s.rank := accepts]);
      } else {
        ghost var now := Counts();
        forall r ensures r in now <==> r in was {
        }
        forall r | r in now ensures now[r] == was[r] {
        }
        SameMap(now, was);
      }
    }

    /** Count the waiting neighbours down and drop those that wait for nobody else. */
    method PopReady(conset: set<int>)
      requires conset <= waitConn.Keys && Filed()
      modifies this`waitConn, entries`waitAccept
      ensures Filed() && Counts() == Remaining(old(Counts()), conset)
    {
      ghost var was := Counts();
      var rmset := CountDown(conset);
      waitConn := waitConn - rmset;
      ghost var now := Counts();
      forall r ensures r in now <==> r in Remaining(was, conset) {
      }
      forall r | r in now ensures now[r] == Remaining(was, conset)[r] {
      }
      assert now == Remaining(was, conset);
    }
  }

  /** A set walked through, in some order. */
  method ListOf(s: set<int>) returns (l: seq<int>)
    ensures |l| == |s| && Unrepeated(l) && forall x :: x in l <==> x in s
  {
    l := [];
    var rest := s;
    while rest != {}
      invariant rest <= s && |l| + |rest| == |s| && Unrepeated(l) && forall x :: x in l <==> x in s && x !in rest
      decreases rest
    {
      ghost var some := SomeElement(rest);
      var r :| r in rest;
      l, rest := l + [r], rest - {r};
    }
  }

  lemma AfterOneMore(m: Maps, n: nat, order: seq<int>, rank: int) returns (p: Progress)
    requires Ranks(order, n) && InMaps(m, order) && 0 <= rank < n && rank !in order && Mutual(m, n)
    ensures rank in m.tree && rank in m.ring && Ranks(order + [rank], n) && InMaps(m, order + [rank])
    ensures p == AfterStarts(m, order + [rank])
    ensures p == StepProgress(m, AfterStarts(m, order), rank)
  {
    assert rank in m.tree.Keys && rank in m.ring.Keys;
    var o := order + [rank];
    assert o[..|order|] == order && o[|order|] == rank;
    p := AfterStarts(m, o);
  }

  /** The counters after one more start. */
  ghost function TableStep(t: map<int, int>, conset: set<int>, rank: int, accepts: int): map<int, int> {
    if accepts > 0 then Remaining(t, conset)[rank := accepts] else Remaining(t, conset)
  }

  ghost function Remaining(t: map<int, int>, conset: set<int>): map<int, int> {
    map r | r in t && !(r in conset && t[r] == 1) :: t[r] - if r in conset then 1 else 0
  }

  ghost predicate Ranks(order: seq<int>, n: nat) {
    Unrepeated(order) && forall i :: 0 <= i < |order| ==> 0 <= order[i] < n
  }

  /** The neighbours found waiting are exactly those that have started. */
  lemma WaitingNeighbours(t: map<int, int>, m: Maps, n: nat, order: seq<int>, rank: int)
    requires Mutual(m, n) && Ranks(order, n) && 0 <= rank < n && rank !in order && Right(t, m, n, order)
    ensures rank in m.tree && rank in m.ring && rank !in t
    ensures LinksTo(m, rank) * t.Keys == LinksTo(m, rank) * Elements(order)
  {
    assert rank in m.tree.Keys && rank in m.ring.Keys;
    assert At(t, rank) == 0;
    forall x | x in LinksTo(m, rank) ensures x in t <==> x in order {
      assert Linked(m, rank, x) && Linked(m, x, rank);
      assert x in m.tree.Keys;
      assert rank in LinksTo(m, x) - Elements(order);
      assert At(t, x) == Waits(m, order, x);
    }
  }

  lemma TableStepAt(t: map<int, int>, conset: set<int>, rank: int, accepts: int, r: int)
    requires conset <= t.Keys && rank !in t && accepts >= 0 && forall x :: x in t ==> t[x] > 0
    ensures var u := TableStep(t, conset, rank, accepts);
      && At(u, r) == (if r == rank then accepts else At(t, r) - if r in conset then 1 else 0)
      && (r in u ==> u[r] > 0 && (r in t || r == rank))
  {
  }

  /** The counters stay right, first for one rank. */
  lemma RightStepAt(t: map<int, int>, m: Maps, n: nat, order: seq<int>, rank: int, r: int)
    requires Mutual(m, n) && Ranks(order, n) && 0 <= rank < n && rank !in order && Right(t, m, n, order)
    requires rank in m.tree && rank in m.ring && r in m.tree && r in m.ring && 0 <= r < n
    ensures var conset := LinksTo(m, rank) * t.Keys;
      At(TableStep(t, conset, rank, |LinksTo(m, rank)| - |conset|), r) == Waits(m, order + [rank], r)
  {
    WaitingNeighbours(t, m, n, order, rank);
    MissingOwn(m, n, order, rank);
    var conset := LinksTo(m, rank) * t.Keys;
    TableStepAt(t, conset, rank, |LinksTo(m, rank)| - |conset|, r);
    if r != rank {
      MissingStep(m, n, order, rank, r);
    }
  }

  lemma RightStepPositive(t: map<int, int>, m: Maps, n: nat, order: seq<int>, rank: int, r: int)
    requires Mutual(m, n) && Ranks(order, n) && 0 <= rank < n && rank !in order && Right(t, m, n, order)
    requires rank in m.tree && rank in m.ring
    ensures var conset := LinksTo(m, rank) * t.Keys;
      var u := TableStep(t, conset, rank, |LinksTo(m, rank)| - |conset|);
      r in u ==> 0 <= r < n && u[r] > 0
  {
    WaitingNeighbours(t, m, n, order, rank);
    MissingOwn(m, n, order, rank);
    var conset := LinksTo(m, rank) * t.Keys;
    TableStepAt(t, conset, rank, |LinksTo(m, rank)| - |conset|, r);
  }

  lemma RightStep(t: map<int, int>, m: Maps, n: nat, order: seq<int>, rank: int)
    requires Mutual(m, n) && Ranks(order, n) && 0 <= rank < n && rank !in order && Right(t, m, n, order)
    requires rank in m.tree && rank in m.ring
    ensures var conset := LinksTo(m, rank) * t.Keys;
      Right(TableStep(t, conset, rank, |LinksTo(m, rank)| - |conset|), m, n, order + [rank])
  {
    var conset := LinksTo(m, rank) * t.Keys;
    var accepts := |LinksTo(m, rank)| - |conset|;
    var u := TableStep(t, conset, rank, accepts);
    forall r | r in u ensures 0 <= r < n && u[r] > 0 {
      RightStepPositive(t, m, n, order, rank, r);
    }
    forall r | 0 <= r < n ensures At(u, r) == Waits(m, order + [rank], r) {
      assert r in m.tree.Keys && r in m.ring.Keys;
      RightStepAt(t, m, n, order, rank, r);
    }
  }

  /** The tracker's counters are right over every start order: a rank waits exactly while it
      has started and some neighbour has not, and for exactly those neighbours. */
  lemma {:induction false} CountersAreRight(m: Maps, n: nat, order: seq<int>)
    requires Mutual(m, n) && Ranks(order, n) && InMaps(m, order)
    ensures Right(AfterStarts(m, order).table, m, n, order)
  {
    if order != [] {
      var k := |order| - 1;
      var front, rank := order[..k], order[k];
      assert order == front + [rank];
      CountersAreRight(m, n, front);
      RightStep(AfterStarts(m, front).table, m, n, front, rank);
    }
  }

  /** And so are the links. */
  lemma {:induction false} LinksAreRight(m: Maps, n: nat, order: seq<int>)
    requires Mutual(m, n) && Ranks(order, n) && InMaps(m, order)
    ensures AfterStarts(m, order).links == LinksOf(m, order)
  {
    if order != [] {
      var k := |order| - 1;
      var front, rank := order[..k], order[k];
      LinksAreRight(m, n, front);
      CountersAreRight(m, n, front);
      WaitingNeighbours(AfterStarts(m, front).table, m, n, front, rank);
      LinksOfStep(m, order);
    }
  }

  lemma LinksOfStep(m: Maps, order: seq<int>)
    requires order != [] && order[|order| - 1] in m.tree && order[|order| - 1] in m.ring
    ensures var k := |order| - 1;
      LinksOf(m, order) ==
      LinksOf(m, order[..k]) + (set x | x in LinksTo(m, order[k]) * Elements(order[..k]) :: (order[k], x))
  {
    var k := |order| - 1;
    assert forall x :: x in LinksTo(m, order[k]) * Elements(order[..k]) <==>
      x in Elements(order[..k]) && Linked(m, order[k], x);
  }

  /** Once everybody has started, nobody waits, and every tree link and every ring link exists exactly once. */
  lemma AllStarted(m: Maps, s: seq<int>, n: nat, order: seq<int>)
    requires Wired(m, s, n) && Arranges(order, n) && InMaps(m, order)
    ensures AfterStarts(m, order).table == map[] && Meshed(AfterStarts(m, order).links, s)
  {
    CountersAreRight(m, n, order);
    LinksAreRight(m, n, order);
    var t := AfterStarts(m, order).table;
    forall r | 0 <= r < n ensures r !in t {
      assert r in m.tree.Keys && r in m.ring.Keys;
      forall x | x in LinksTo(m, r) ensures x in order {
        assert Linked(m, r, x) && Linked(m, x, r) && x in m.tree.Keys;
        ArrangesAll(order, n, x);
      }
      assert LinksTo(m, r) - Elements(order) == {};
      assert At(t, r) == Waits(m, order, r);
    }
    forall a, b
      ensures (a, b) in LinksOf(m, order) ==> Joined(s, a, b)
      ensures Joined(s, a, b) ==> ((a, b) in LinksOf(m, order) <==> (b, a) !in LinksOf(m, order))
    {
      LinkMadeByLater(m, s, n, order, a, b);
      if Joined(s, a, b) {
        EveryLinkOnce(m, s, n, order, a, b);
      }
    }
  }

  lemma LinksAreJoined(m: Maps, s: seq<int>, n: nat, rank: int)
    requires Wired(m, s, n) && 0 <= rank < n
    ensures rank in m.tree && rank in m.ring && forall x :: x in LinksTo(m, rank) <==> Joined(s, rank, x)
  {
    assert rank in m.tree.Keys && rank in m.ring.Keys;
    forall x ensures x in LinksTo(m, rank) <==> Joined(s, rank, x) {
      assert Linked(m, rank, x) <==> x in LinksTo(m, rank);
    }
  }

  lemma OthersCount(all: set<int>, order: seq<int>, rest: set<int>)
    requires forall x :: x in rest <==> x in all && x !in order
    ensures |all| - |all * Elements(order)| == |rest|
  {
    var e := Elements(order);
    forall x ensures x in rest <==> x in all - e {
      assert x in e <==> x in order;
    }
    assert rest == all - e && all == (all - e) + (all * e);
  }

  /** Whom a starter is told to connect to: the neighbours that have started; the others it waits for. */
  lemma Told(m: Maps, s: seq<int>, n: nat, order: seq<int>, rank: int)
    requires Wired(m, s, n) && Ranks(order, n) && InMaps(m, order) && 0 <= rank < n && rank !in order
    ensures rank in m.tree && rank in m.ring
    ensures var conset := LinksTo(m, rank) * AfterStarts(m, order).table.Keys;
      && (forall x :: x in conset <==> x in order && Joined(s, rank, x))
      && |LinksTo(m, rank)| - |conset| == |Others(s, n, order, rank)|
  {
    LinksAreJoined(m, s, n, rank);
    CountersAreRight(m, n, order);
    WaitingNeighbours(AfterStarts(m, order).table, m, n, order, rank);
    OthersCount(LinksTo(m, rank), order, Others(s, n, order, rank));
  }

  /** Over every order of starts, a rank that has started waits for exactly its neighbours that have not. */
  lemma WaitsForOthers(m: Maps, s: seq<int>, n: nat, order: seq<int>, r: int)
    requires Wired(m, s, n) && Ranks(order, n) && InMaps(m, order) && 0 <= r < n
    ensures At(AfterStarts(m, order).table, r) == if r in order then |Others(s, n, order, r)| else 0
  {
    LinksAreJoined(m, s, n, r);
    CountersAreRight(m, n, order);
    assert At(AfterStarts(m, order).table, r) == Waits(m, order, r);
    forall x ensures x in Others(s, n, order, r) <==> x in LinksTo(m, r) - Elements(order) {
      assert x in Elements(order) <==> x in order;
    }
    assert Others(s, n, order, r) == LinksTo(m, r) - Elements(order);
  }

  /** The neighbours of a rank that have not started. */
  ghost function Others(s: seq<int>, n: nat, order: seq<int>, rank: int): set<int> {
    set x | x in Below(n) && x !in order && Joined(s, rank, x)
  }
}
