/**
 The link maps of tracker.py: a binary heap as the tree, a ring that reuses tree links,
 and the relabelling that makes ring neighbours consecutive ranks.
 */
module TrackerTopology {
  import opened Collections

  // ---------- the tree ----------

  /** get_neighbor: the parent, then the children below nslave. */
  function Neighbors(r: nat, n: nat): seq<int> {
    (if r > 0 then [(r + 1) / 2 - 1] else [])
    + (if 2 * r + 1 < n then [2 * r + 1] else [])
    + (if 2 * r + 2 < n then [2 * r + 2] else [])
  }

  function ParentOf(r: nat): int {
    (r + 1) / 2 - 1
  }

  /** c is a child of r in the heap. */
  predicate ChildOf(c: int, r: int) {
    c == 2 * r + 1 || c == 2 * r + 2
  }

  lemma NeighborsAreTreeLinks(r: nat, n: nat, x: int)
    requires r < n
    ensures x in Neighbors(r, n) <==> 0 <= x < n && (ChildOf(x, r) || ChildOf(r, x))
    ensures r > 0 ==> 0 <= ParentOf(r) < r && ChildOf(r, ParentOf(r))
    ensures ParentOf(0) == -1
  {
  }

  method GetTree(nslave: nat) returns (tree: map<int, seq<int>>, parent: map<int, int>)
    ensures tree == HeapTree(nslave) && parent == HeapParents(nslave)
  {
    tree, parent := map[], map[];
    for r := 0 to nslave
      invariant tree == HeapTree(r as nat, nslave)
      invariant parent == HeapParents(r)
    {
      tree := tree[r := Neighbors(r, nslave)];
      parent := parent[r := ParentOf(r)];
    }
  }

  ghost function HeapTree(n: nat, total: nat := n): map<int, seq<int>> {
    map r | 0 <= r < n :: Neighbors(r, total)
  }

  ghost function HeapParents(n: nat): map<int, int> {
    map r | 0 <= r < n :: ParentOf(r)
  }

  // ---------- ancestors ----------

  /** a is x or lies above it. */
  predicate Above(a: int, x: int)
    decreases x
  {
    a == x || (x > a >= 0 && Above(a, ParentOf(x)))
  }

  lemma {:induction false} RootAboveAll(x: nat)
    ensures Above(0, x)
  {
    if x > 0 {
      RootAboveAll(ParentOf(x));
    }
  }

  lemma {:induction false} AboveLarger(a: nat, x: int)
    requires Above(a, x)
    ensures a <= x
  {
  }

  /** Below r lie r itself and what lies below its children. */
  lemma {:induction false} AboveChildren(r: nat, x: int)
    ensures Above(r, x) <==> x == r || Above(2 * r + 1, x) || Above(2 * r + 2, x)
    decreases x
  {
    if x > r {
      AboveChildren(r, ParentOf(x));
      if ParentOf(x) == r {
        assert ChildOf(x, r);
      }
    }
  }

  /** Nothing lies below both of two different nodes of one depth. */
  lemma {:induction false} SiblingsDisjoint(r: nat, x: int)
    ensures !(Above(2 * r + 1, x) && Above(2 * r + 2, x))
    ensures !Above(2 * r + 1, r) && !Above(2 * r + 2, r)
    decreases x
  {
    if x > 2 * r + 2 {
      SiblingsDisjoint(r, ParentOf(x));
    }
  }

  // ---------- the ring list ----------

  /** x is a node of the subtree of one of the roots. */
  ghost predicate Under(roots: set<int>, x: int, n: nat) {
    0 <= x < n && exists v :: v in roots && Above(v, x)
  }

  /** s lists each node under the roots exactly once. */
  ghost predicate Lists(s: seq<int>, roots: set<int>, n: nat) {
    Unrepeated(s) && forall x :: x in s <==> Under(roots, x, n)
  }

  function Reversed<T>(s: seq<T>): seq<T> {
    if s == [] then [] else Reversed(s[1..]) + [s[0]]
  }

  lemma {:induction false} ReversedSame<T>(s: seq<T>)
    ensures |Reversed(s)| == |s| && forall k :: 0 <= k < |s| ==> Reversed(s)[k] == s[|s| - 1 - k]
  {
    if s != [] {
      ReversedSame(s[1..]);
    }
  }

  lemma ReversedLists(s: seq<int>, roots: set<int>, n: nat)
    requires Lists(s, roots, n)
    ensures Lists(Reversed(s), roots, n) && |Reversed(s)| == |s|
    ensures s != [] ==> Reversed(s)[|s| - 1] == s[0]
  {
    ReversedSame(s);
    var t := Reversed(s);
    forall x ensures x in t <==> x in s {
      if x in s {
        var k :| 0 <= k < |s| && s[k] == x;
        assert t[|s| - 1 - k] == x;
      }
    }
  }

  lemma AppendLists(s: seq<int>, a: set<int>, t: seq<int>, b: set<int>, n: nat)
    requires Lists(s, a, n) && Lists(t, b, n)
    requires forall x :: !(Under(a, x, n) && Under(b, x, n))
    ensures Lists(s + t, a + b, n)
  {
    forall x ensures x in s + t <==> Under(a + b, x, n) {
      if Under(a + b, x, n) {
        var v :| v in a + b && Above(v, x);
        assert v in a ==> Under(a, x, n);
        assert v in b ==> Under(b, x, n);
      }
    }
    forall i, j | 0 <= i < j < |s + t| ensures (s + t)[i] != (s + t)[j] {
      assert i < |s| && j >= |s| ==> (s + t)[i] in s && (s + t)[j] in t;
    }
  }

  /** Sets of children of r: disjoint sets have disjoint subtrees. */
  lemma ChildrenDisjoint(r: nat, a: set<int>, b: set<int>, x: int, n: nat)
    requires forall v :: v in a + b ==> ChildOf(v, r)
    requires a !! b
    ensures !(Under(a, x, n) && Under(b, x, n)) && !Under(a, r, n)
  {
    SiblingsDisjoint(r, x);
    forall v, w | v in a && w in b ensures !(Above(v, x) && Above(w, x)) {
      assert ChildOf(v, r) && ChildOf(w, r);
    }
    forall v | v in a ensures !Above(v, r) {
      assert ChildOf(v, r);
    }
  }

  /** The list of one more child's subtree is appended. */
  lemma AppendChild(r: nat, below: seq<int>, done: set<int>, vlst: seq<int>, v: int, n: nat)
    requires Lists(below, done, n) && Lists(vlst, {v}, n) && v !in done
    requires ChildOf(v, r) && forall w :: w in done ==> ChildOf(w, r)
    ensures Lists(below + vlst, done + {v}, n)
  {
    forall x ensures !(Under(done, x, n) && Under({v}, x, n)) {
      ChildrenDisjoint(r, done, {v}, x, n);
    }
    AppendLists(below, done, vlst, {v}, n);
  }

  /** A node in front of the lists of its children. */
  lemma PrependNode(r: nat, below: seq<int>, cset: set<int>, n: nat)
    requires Lists(below, cset, n) && r < n
    requires forall v :: v in cset <==> 0 <= v < n && ChildOf(v, r)
    ensures Lists([r] + below, {r}, n)
  {
    forall x ensures x in [r] + below <==> Under({r}, x, n) {
      NodeAndChildren(r, cset, x, n);
    }
    ChildrenDisjoint(r, cset, {}, r, n);
  }

  ghost function ChildSet(r: nat, n: nat): set<int> {
    set x | 0 <= x < n && ChildOf(x, r)
  }

  /** The neighbours other than the parent are the children. */
  lemma ChildrenByDifference(r: nat, n: nat)
    requires r < n
    ensures (set x | x in Neighbors(r, n)) - {ParentOf(r)} == ChildSet(r, n)
  {
    forall x ensures x in Neighbors(r, n) && x != ParentOf(r) <==> 0 <= x < n && ChildOf(x, r) {
      NeighborsAreTreeLinks(r, n, x);
    }
  }

  lemma NodeAndChildren(r: nat, c: set<int>, x: int, n: nat)
    requires r < n && forall v :: v in c <==> 0 <= v < n && ChildOf(v, r)
    ensures Under({r}, x, n) <==> x == r || Under(c, x, n)
  {
    if 0 <= x < n {
      AboveChildren(r, x);
      assert Under({r}, x, n) <==> Above(r, x);
      if Above(2 * r + 1, x) {
        AboveLarger(2 * r + 1, x);
        assert 2 * r + 1 in c;
      }
      if Above(2 * r + 2, x) {
        AboveLarger(2 * r + 2, x);
        assert 2 * r + 2 in c;
      }
    }
  }

  method Children(tree: map<int, seq<int>>, parent: map<int, int>, r: nat, ghost n: nat) returns (cset: set<int>)
    requires r < n && tree == HeapTree(n) && parent == HeapParents(n)
    ensures cset == ChildSet(r, n)
  {
    var nset := set x | x in tree[r];
    cset := nset - {parent[r]};
    ChildrenByDifference(r, n);
  }

  /** find_share_ring.  The children come in any order.  The list starts at r, and ends at a
      child of r, so that closing the ring uses a tree link. */
  method FindShareRing(tree: map<int, seq<int>>, parent: map<int, int>, r: nat, ghost n: nat)
      returns (rlst: seq<int>)
    requires r < n && tree == HeapTree(n) && parent == HeapParents(n)
    ensures Lists(rlst, {r}, n) && rlst != [] && rlst[0] == r
    ensures |rlst| > 1 ==> ChildOf(rlst[|rlst| - 1], r)
    decreases n - r, 1
  {
    var cset := Children(tree, parent, r, n);
    var below := RingBelow(tree, parent, r, cset, n);
    PrependNode(r, below, cset, n);
    rlst := [r] + below;
  }

  /** The lists of the children one after the other, the last one turned round. */
  method RingBelow(tree: map<int, seq<int>>, parent: map<int, int>, r: nat, cset: set<int>, ghost n: nat)
      returns (below: seq<int>)
    requires r < n && tree == HeapTree(n) && parent == HeapParents(n)
    requires forall v :: v in cset ==> r < v < n && ChildOf(v, r)
    ensures Lists(below, cset, n) && (below != [] ==> ChildOf(below[|below| - 1], r))
    decreases n - r, 0
  {
    var rest, cnt := cset, 0;
    ghost var done: set<int> := {};
    below := [];
    while rest != {}
      invariant Split(cset, rest, done) && cnt == |done| && Lists(below, done, n)
      invariant rest == {} && below != [] ==> below[|below| - 1] in cset
      decreases rest
    {
      ghost var some := SomeElement(rest);
      var v :| v in rest;
      cnt := cnt + 1;
      SplitStep(cset, rest, done, v);
      var vlst := ChildRing(tree, parent, v, cnt == |cset|, n);
      AppendChild(r, below, done, vlst, v, n);
      below := below + vlst;
      rest, done := rest - {v}, done + {v};
    }
    assert done == cset;
  }

  ghost predicate Split(all: set<int>, rest: set<int>, done: set<int>) {
    rest + done == all && rest !! done
  }

  lemma SplitStep(all: set<int>, rest: set<int>, done: set<int>, v: int)
    requires Split(all, rest, done) && v in rest
    ensures Split(all, rest - {v}, done + {v}) && v in all && v !in done && done <= all
    ensures |done + {v}| == |done| + 1
    ensures |done| + 1 == |all| <==> rest - {v} == {}
  {
    assert all == (rest - {v}) + (done + {v});
    assert |all| == |rest - {v}| + |done + {v}|;
  }

  /** The list of one child, turned round for the last child. */
  method ChildRing(tree: map<int, seq<int>>, parent: map<int, int>, v: nat, last: bool, ghost n: nat)
      returns (vlst: seq<int>)
    requires v < n && tree == HeapTree(n) && parent == HeapParents(n)
    ensures Lists(vlst, {v}, n) && vlst != [] && (last ==> vlst[|vlst| - 1] == v)
    decreases n - v, 2
  {
    vlst := FindShareRing(tree, parent, v, n);
    if last {
      ReversedLists(vlst, {v}, n);
      vlst := Reversed(vlst);
    }
  }

  // ---------- the ring ----------

  /** s is an arrangement of 0 .. n-1. */
  ghost predicate Arranges(s: seq<int>, n: nat) {
    |s| == n && Unrepeated(s) && forall i :: 0 <= i < n ==> 0 <= s[i] < n
  }

  lemma {:induction false} UnrepeatedCardinality(s: seq<int>)
    requires Unrepeated(s)
    ensures |Elements(s)| == |s|
  {
    if s != [] {
      var front := s[..|s| - 1];
      UnrepeatedCardinality(front);
      assert Elements(s) == Elements(front) + {s[|s| - 1]};
    }
  }

  /** The set 0 .. n-1. */
  /** An arrangement leaves nothing out. */
  lemma ArrangesAll(s: seq<int>, n: nat, x: int)
    requires Arranges(s, n) && 0 <= x < n
    ensures x in s
  {
    UnrepeatedCardinality(s);
    var b := Below(n);
    var a := Elements(s);
    if x !in s {
      assert a <= b - {x};
      SubsetCardinality(a, b - {x});
    }
  }

  /** A set that is not empty has an element. */
  lemma {:induction false} SubsetCardinality(a: set<int>, b: set<int>)
    requires a <= b
    ensures |a| <= |b|
  {
    if a != {} {
      var x := SomeElement(a);
      SubsetCardinality(a - {x}, b - {x});
    }
  }

  /** The list from the root arranges all nodes, so its length check cannot fail. */
  lemma WholeTreeArranged(s: seq<int>, n: nat)
    requires Lists(s, {0}, n) && n > 0
    ensures Arranges(s, n)
  {
    forall x ensures x in s <==> 0 <= x < n {
      if 0 <= x < n {
        RootAboveAll(x);
        assert Under({0}, x, n);
      }
    }
    UnrepeatedCardinality(s);
    assert Elements(s) == Below(n);
    forall i | 0 <= i < |s| ensures 0 <= s[i] < n {
      assert s[i] in s;
    }
  }

  /** One step back and forth round a ring of n places. */
  function Prev(i: nat, n: nat): nat
    requires i < n
  {
    if i == 0 then n - 1 else i - 1
  }

  function Next(i: nat, n: nat): nat
    requires i < n
  {
    if i + 1 == n then 0 else i + 1
  }

  lemma RingSteps(i: nat, n: nat)
    requires i < n
    ensures (i + n - 1) % n == Prev(i, n) && (i + 1) % n == Next(i, n)
  {
    if i > 0 {
      WrapOnce(i - 1, n);
    }
    if i + 1 == n {
      WrapOnce(0, n);
    }
  }

  lemma WrapOnce(r: nat, n: nat)
    requires r < n
    ensures (r + n) % n == r
  {
  }

  /** Every node is linked to the nodes before and after it along s, cyclically. */
  ghost predicate RingAlong(ring: map<int, (int, int)>, s: seq<int>) {
    && ring.Keys == Elements(s)
    && forall i {:trigger ring[s[i]]} :: 0 <= i < |s| ==>
      ring[s[i]] == (s[Prev(i, |s|)], s[Next(i, |s|)])
  }

  method GetRing(tree: map<int, seq<int>>, parent: map<int, int>, nslave: nat)
      returns (ring: map<int, (int, int)>, ghost rlst: seq<int>)
    requires nslave > 0 && tree == HeapTree(nslave) && parent == HeapParents(nslave)
    ensures Arranges(rlst, nslave) && rlst[0] == 0 && RingAlong(ring, rlst)
    ensures nslave > 1 ==> ChildOf(rlst[nslave - 1], 0)
  {
    assert parent[0] == -1;
    var list := FindShareRing(tree, parent, 0, nslave);
    WholeTreeArranged(list, nslave);
    rlst := list;
    ring := RingFromList(list);
  }

  method RingFromList(list: seq<int>) returns (ring: map<int, (int, int)>)
    requires Unrepeated(list)
    ensures RingAlong(ring, list)
  {
    var n := |list|;
    ring := map[];
    for r := 0 to n
      invariant ring.Keys == Elements(list[..r])
      invariant forall i :: 0 <= i < r ==> ring[list[i]] == (list[Prev(i, n)], list[Next(i, n)])
    {
      RingSteps(r, n);
      var rprev := (r + n - 1) % n;
      var rnext := (r + 1) % n;
      assert forall i :: 0 <= i < r ==> list[i] != list[r];
      ring := ring[list[r] := (list[rprev], list[rnext])];
      assert list[..r + 1] == list[..r] + [list[r]];
    }
    assert list[..n] == list;
  }

  /** The node k links after x. */
  ghost function Follow(ring: map<int, (int, int)>, x: int, k: nat): int {
    if k == 0 then x
    else
      var y := Follow(ring, x, k - 1);
      if y in ring then ring[y].1 else y
  }

  /** The ring is one cycle: from 0 it passes every node and is back after n links. */
  lemma FollowOne(ring: map<int, (int, int)>, s: seq<int>, k: nat)
    requires 0 < k <= |s| && Follow(ring, 0, k - 1) == s[k - 1] && s[k - 1] in ring
    ensures Follow(ring, 0, k) == ring[s[k - 1]].1
  {
  }

  lemma {:induction false} RingIsOneCycle(ring: map<int, (int, int)>, s: seq<int>, n: nat, k: nat)
    requires n > 0 && Arranges(s, n) && s[0] == 0 && RingAlong(ring, s) && k <= n
    ensures Follow(ring, 0, k) == s[if k < n then k else 0]
  {
    if k > 0 {
      RingIsOneCycle(ring, s, n, k - 1);
      RingNext(ring, s, k - 1);
      FollowOne(ring, s, k);
    }
  }

  lemma RingNext(ring: map<int, (int, int)>, s: seq<int>, i: nat)
    requires i < |s| && RingAlong(ring, s)
    ensures s[i] in ring && ring[s[i]].1 == s[Next(i, |s|)]
  {
    assert s[i] in Elements(s);
  }

  // ---------- relabelling ----------

  /** rank numbers the nodes in the order of s. */
  ghost predicate RanksAlong(rank: map<int, int>, s: seq<int>) {
    && rank.Keys == Elements(s)
    && forall i :: 0 <= i < |s| ==> rank[s[i]] == i
  }

  /** Walk the ring from node 0, numbering the nodes as they come. */
  lemma RanksFirst(s: seq<int>)
    requires s != [] && s[0] == 0
    ensures RanksAlong(map[0 := 0], s[..1])
  {
    assert s[..1] == [0] && Elements([0]) == {0};
  }

  method NumberAlongRing(ring: map<int, (int, int)>, nslave: nat, ghost s: seq<int>) returns (rmap: map<int, int>)
    requires nslave > 0 && Arranges(s, nslave) && s[0] == 0 && RingAlong(ring, s)
    ensures RanksAlong(rmap, s)
  {
    rmap := map[0 := 0];
    RanksFirst(s);
    var k := 0;
    for i := 0 to nslave - 1
      invariant k == s[i] && RanksAlong(rmap, s[..i + 1])
    {
      k, rmap := NumberNext(ring, s, i, k, rmap);
    }
    assert s[..nslave] == s;
  }

  method NumberNext(ring: map<int, (int, int)>, ghost s: seq<int>, i: nat, k: int, rmap: map<int, int>)
      returns (k': int, rmap': map<int, int>)
    requires i + 1 < |s| && Unrepeated(s) && RingAlong(ring, s) && k == s[i] && RanksAlong(rmap, s[..i + 1])
    ensures k' == s[i + 1] && RanksAlong(rmap', s[..i + 2])
  {
    assert s[i] in ring;
    k' := ring[k].1;
    RanksStep(rmap, s, i + 1);
    rmap' := rmap[k' := i + 1];
  }

  lemma RanksStep(rank: map<int, int>, s: seq<int>, i: nat)
    requires i < |s| && Unrepeated(s) && RanksAlong(rank, s[..i])
    ensures RanksAlong(rank[s[i] := i], s[..i + 1])
  {
    var t := s[..i + 1];
    assert t == s[..i] + [s[i]];
    forall j | 0 <= j < i ensures s[j] in rank && rank[s[j]] == j && s[j] != s[i] {
      assert s[..i][j] == s[j];
    }
  }

  /** The keys are 0 .. n-1. */
  ghost predicate Numbered(keys: set<int>, n: nat) {
    forall x :: x in keys <==> 0 <= x < n
  }

  /** rank renames the nodes 0 .. n-1 one to one, s renames them back, and the root keeps
      its number. */
  ghost predicate Relabelling(rank: map<int, int>, s: seq<int>, n: nat) {
    && Arranges(s, n) && Numbered(rank.Keys, n)
    && (forall i :: 0 <= i < n ==> rank[s[i]] == i)
    && (forall x :: 0 <= x < n ==> 0 <= rank[x] < n && s[rank[x]] == x)
    && (n > 0 ==> s[0] == 0)
  }

  lemma RanksAreRelabelling(rank: map<int, int>, s: seq<int>, n: nat)
    requires n > 0 && Arranges(s, n) && s[0] == 0 && RanksAlong(rank, s)
    ensures Relabelling(rank, s, n)
  {
    forall x ensures x in rank.Keys <==> 0 <= x < n {
      if 0 <= x < n {
        ArrangesAll(s, n, x);
      }
    }
    forall x | 0 <= x < n ensures 0 <= rank[x] < n && s[rank[x]] == x {
      ArrangesAll(s, n, x);
      var i :| 0 <= i < n && s[i] == x;
      assert rank[s[i]] == i;
    }
  }

  /** A dictionary loop that copies every entry to its new key, in any order. */
  method Rename<V>(m: map<int, V>, rank: map<int, int>, ghost s: seq<int>, ghost n: nat) returns (m': map<int, V>)
    requires Numbered(m.Keys, n) && Relabelling(rank, s, n)
    ensures Numbered(m'.Keys, n) && forall i :: 0 <= i < n ==> m'[i] == m[s[i]]
  {
    m' := map[];
    var rest := m.Keys;
    while rest != {}
      invariant rest <= m.Keys
      invariant forall i :: i in m' <==> 0 <= i < n && s[i] !in rest
      invariant forall i :: i in m' ==> m'[i] == m[s[i]]
      decreases rest
    {
      ghost var some := SomeElement(rest);
      var k :| k in rest;
      assert s[rank[k]] == k && forall i :: 0 <= i < n && s[i] == k ==> i == rank[k];
      m' := m'[rank[k] := m[k]];
      rest := rest - {k};
    }
  }

  function MapSeq(rank: map<int, int>, s: seq<int>): (t: seq<int>)
    requires forall i :: 0 <= i < |s| ==> s[i] in rank
    ensures |t| == |s| && forall i :: 0 <= i < |s| ==> t[i] == rank[s[i]]
  {
    if s == [] then [] else [rank[s[0]]] + MapSeq(rank, s[1..])
  }

  method RenameTree(tree: map<int, seq<int>>, rmap: map<int, int>, ghost s: seq<int>, ghost n: nat)
      returns (tree': map<int, seq<int>>)
    requires tree == HeapTree(n) && Relabelling(rmap, s, n)
    ensures TreeRenamed(tree', rmap, s, n)
  {
    forall k, i | 0 <= k < n && 0 <= i < |Neighbors(k, n)| ensures 0 <= Neighbors(k, n)[i] < n {
      NeighborsAreTreeLinks(k, n, Neighbors(k, n)[i]);
    }
    var m := map k | k in tree :: MapSeq(rmap, tree[k]);
    tree' := Rename(m, rmap, s, n);
  }

  method RenameParents(parent: map<int, int>, rmap: map<int, int>, ghost s: seq<int>, ghost n: nat)
      returns (parent': map<int, int>)
    requires parent == HeapParents(n) && Relabelling(rmap, s, n)
    ensures ParentsRenamed(parent', rmap, s, n)
  {
    var m := map k | k in parent :: if k != 0 then rmap[parent[k]] else -1;
    parent' := Rename(m, rmap, s, n);
  }

  method RenameRing(ring: map<int, (int, int)>, rmap: map<int, int>, ghost s: seq<int>, ghost n: nat)
      returns (ring': map<int, (int, int)>)
    requires n > 0 && RingAlong(ring, s) && Relabelling(rmap, s, n)
    ensures RingRenamed(ring', n)
  {
    RingEntries(ring, rmap, s, n);
    var m := EndsRenamed(ring, rmap);
    ring' := Rename(m, rmap, s, n);
    RingResult(ring, rmap, s, n, m, ring');
  }

  /** Both ends of every ring link are renamed. */
  function EndsRenamed(ring: map<int, (int, int)>, rank: map<int, int>): (m: map<int, (int, int)>)
    requires EndsRanked(ring, rank)
    ensures m.Keys == ring.Keys
    ensures forall k {:trigger m[k]} :: k in m ==>
      ring[k].0 in rank && ring[k].1 in rank && m[k] == (rank[ring[k].0], rank[ring[k].1])
  {
    map k | k in ring :: (rank[ring[k].0], rank[ring[k].1])
  }

  ghost predicate EndsRanked(ring: map<int, (int, int)>, rank: map<int, int>) {
    forall k :: k in ring ==> ring[k].0 in rank && ring[k].1 in rank
  }

  lemma RingEntries(ring: map<int, (int, int)>, rank: map<int, int>, s: seq<int>, n: nat)
    requires n > 0 && RingAlong(ring, s) && Relabelling(rank, s, n)
    ensures Numbered(ring.Keys, n) && EndsRanked(ring, rank)
  {
    forall k ensures k in ring.Keys <==> 0 <= k < n {
      RingEntry(ring, rank, s, n, k);
    }
    forall k | k in ring ensures ring[k].0 in rank && ring[k].1 in rank {
      RingEntry(ring, rank, s, n, k);
    }
  }

  lemma RingResult(ring: map<int, (int, int)>, rank: map<int, int>, s: seq<int>, n: nat,
                   m: map<int, (int, int)>, ring': map<int, (int, int)>)
    requires n > 0 && RingAlong(ring, s) && Relabelling(rank, s, n) && Numbered(m.Keys, n) && m.Keys == ring.Keys
    requires forall k {:trigger m[k]} :: k in m ==>
      ring[k].0 in rank && ring[k].1 in rank && m[k] == (rank[ring[k].0], rank[ring[k].1])
    requires Numbered(ring'.Keys, n) && forall i :: 0 <= i < n ==> ring'[i] == m[s[i]]
    ensures RingRenamed(ring', n)
  {
    forall i | 0 <= i < n ensures ring'[i] == (Prev(i, n), Next(i, n)) {
      RingEntry(ring, rank, s, n, s[i]);
    }
  }

  lemma RingEntry(ring: map<int, (int, int)>, rank: map<int, int>, s: seq<int>, n: nat, k: int)
    requires n > 0 && RingAlong(ring, s) && Relabelling(rank, s, n)
    ensures k in ring <==> 0 <= k < n
    ensures k in ring ==>
      && ring[k].0 in rank && ring[k].1 in rank
      && rank[ring[k].0] == Prev(rank[k], n) && rank[ring[k].1] == Next(rank[k], n)
  {
    if 0 <= k < n {
      ArrangesAll(s, n, k);
      var i := rank[k];
      assert s[i] == k && ring[s[i]] == (s[Prev(i, n)], s[Next(i, n)]);
      var a, b := Prev(i, n), Next(i, n);
      assert rank[s[a]] == a && rank[s[b]] == b;
    }
    assert k in ring ==> k in s;
  }

  /** Rank i has the tree neighbours of node s[i], renamed. */
  ghost predicate TreeRenamed(tree: map<int, seq<int>>, rank: map<int, int>, s: seq<int>, n: nat) {
    && Relabelling(rank, s, n) && Numbered(tree.Keys, n)
    && forall i {:trigger tree[i]} :: 0 <= i < n ==>
      && (forall j :: 0 <= j < |Neighbors(s[i], n)| ==> Neighbors(s[i], n)[j] in rank)
      && tree[i] == MapSeq(rank, Neighbors(s[i], n))
  }

  ghost predicate ParentsRenamed(parent: map<int, int>, rank: map<int, int>, s: seq<int>, n: nat) {
    && Relabelling(rank, s, n) && Numbered(parent.Keys, n)
    && forall i {:trigger parent[i]} :: 0 <= i < n ==> parent[i] == if s[i] == 0 then -1 else rank[ParentOf(s[i])]
  }

  /** Rank i sits between ranks i-1 and i+1 modulo n. */
  ghost predicate RingRenamed(ring: map<int, (int, int)>, n: nat) {
    && Numbered(ring.Keys, n)
    && forall i :: 0 <= i < n ==> ring[i] == (Prev(i, n), Next(i, n))
  }

  /** get_link_map: tree and parents are those of the heap, renamed so that ring
      neighbours are consecutive ranks. */
  method GetLinkMap(nslave: nat)
      returns (tree': map<int, seq<int>>, parent': map<int, int>, ring': map<int, (int, int)>,
               ghost rank: map<int, int>, ghost s: seq<int>)
    requires nslave > 0
    ensures TreeRenamed(tree', rank, s, nslave) && ParentsRenamed(parent', rank, s, nslave)
    ensures RingRenamed(ring', nslave)
  {
    var tree, parent := GetTree(nslave);
    var ring;
    ring, s := GetRing(tree, parent, nslave);
    var rmap := NumberAlongRing(ring, nslave, s);
    rank := rmap;
    RanksAreRelabelling(rmap, s, nslave);
    ring' := RenameRing(ring, rmap, s, nslave);
    tree' := RenameTree(tree, rmap, s, nslave);
    parent' := RenameParents(parent, rmap, s, nslave);
  }
}
