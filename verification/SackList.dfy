/**
 The list of received packet ranges of sacks.c.

 The list is canonical when its ranges are descending, disjoint and non-adjacent.  Every
 update keeps it canonical and adds exactly the given range to the set it denotes; and a
 canonical list is determined by that set, so arrival order cannot matter.
 */
module SackList {

  /** Packet numbers are below 2^62 (section 12.3 of RFC 9000), so no +1 below wraps. */
  const PN_LIMIT: nat := 0x4000_0000_0000_0000

  /** start_of_sack_range of a list that has seen nothing: (uint64_t)-1. */
  const NONE: nat := 0xffff_ffff_ffff_ffff

  datatype Range = Range(lo: nat, hi: nat)

  predicate InRange(r: Range, n: int) {
    r.lo <= n <= r.hi
  }

  predicate Covers(s: seq<Range>, n: int) {
    exists i :: 0 <= i < |s| && InRange(s[i], n)
  }

  predicate Canonical(s: seq<Range>) {
    && (forall i :: 0 <= i < |s| ==> s[i].lo <= s[i].hi < PN_LIMIT)
    && (forall i, j :: 0 <= i < j < |s| ==> s[j].hi + 1 < s[i].lo)
  }

  /** s' denotes what s denotes and [lo, hi] besides. */
  ghost predicate Adds(s: seq<Range>, s': seq<Range>, lo: int, hi: int) {
    forall n :: Covers(s', n) <==> Covers(s, n) || lo <= n <= hi
  }

  // ---------- a canonical list is determined by the set it denotes ----------

  lemma HeadIsMaximum(s: seq<Range>)
    requires Canonical(s) && s != []
    ensures Covers(s, s[0].hi) && forall n :: Covers(s, n) ==> n <= s[0].hi
    ensures !Covers(s, s[0].lo - 1)
    ensures forall n :: s[0].lo <= n <= s[0].hi ==> Covers(s, n)
  {
    assert InRange(s[0], s[0].hi);
  }

  lemma CoversTail(s: seq<Range>, n: int)
    requires Canonical(s) && s != []
    ensures Covers(s[1..], n) <==> Covers(s, n) && n < s[0].lo
  {
    if Covers(s, n) && n < s[0].lo {
      var i :| 0 <= i < |s| && InRange(s[i], n);
      assert InRange(s[1..][i - 1], n);
    }
    if Covers(s[1..], n) {
      var i :| 0 <= i < |s[1..]| && InRange(s[1..][i], n);
      assert InRange(s[i + 1], n);
    }
  }

  /** Two canonical lists of the same set are the same list. */
  lemma {:induction false} CanonicalUnique(s: seq<Range>, t: seq<Range>)
    requires Canonical(s) && Canonical(t)
    requires forall n :: Covers(s, n) <==> Covers(t, n)
    ensures s == t
  {
    if s == [] {
      if t != [] {
        HeadIsMaximum(t);
      }
    } else if t == [] {
      HeadIsMaximum(s);
    } else {
      HeadIsMaximum(s);
      HeadIsMaximum(t);
      assert s[0].hi == t[0].hi;
      assert !Covers(s, t[0].lo - 1) && !Covers(t, s[0].lo - 1);
      assert s[0].lo == t[0].lo;
      forall n ensures Covers(s[1..], n) <==> Covers(t[1..], n) {
        CoversTail(s, n);
        CoversTail(t, n);
      }
      CanonicalUnique(s[1..], t[1..]);
      assert s == [s[0]] + s[1..] && t == [t[0]] + t[1..];
    }
  }

  // ---------- the four edits ----------

  /** Range i gets new bounds that stay clear of its neighbours. */
  lemma Resize(s: seq<Range>, i: nat, r: Range)
    requires Canonical(s) && i < |s| && r.lo <= s[i].lo && s[i].hi <= r.hi < PN_LIMIT
    requires i > 0 ==> r.hi + 1 < s[i - 1].lo
    requires i + 1 < |s| ==> s[i + 1].hi + 1 < r.lo
    ensures Canonical(s[i := r]) && Adds(s, s[i := r], r.lo, r.hi)
  {
    ResizeAdds(s, i, r);
  }

  lemma ResizeAdds(s: seq<Range>, i: nat, r: Range)
    requires i < |s| && r.lo <= s[i].lo && s[i].hi <= r.hi
    ensures Adds(s, s[i := r], r.lo, r.hi)
  {
    var t := s[i := r];
    forall n ensures Covers(t, n) <==> Covers(s, n) || r.lo <= n <= r.hi {
      if Covers(s, n) {
        var k :| 0 <= k < |s| && InRange(s[k], n);
        assert InRange(t[k], n);
      }
      if Covers(t, n) && !InRange(r, n) {
        var k :| 0 <= k < |t| && InRange(t[k], n);
        assert InRange(s[k], n);
      }
      assert InRange(r, n) ==> InRange(t[i], n);
    }
  }

  function Inserted(s: seq<Range>, i: nat, r: Range): seq<Range>
    requires i <= |s|
  {
    s[..i] + [r] + s[i..]
  }

  /** A new range between two others. */
  lemma Insert(s: seq<Range>, i: nat, r: Range)
    requires Canonical(s) && i <= |s| && r.lo <= r.hi < PN_LIMIT
    requires i > 0 ==> r.hi + 1 < s[i - 1].lo
    requires i < |s| ==> s[i].hi + 1 < r.lo
    ensures Canonical(Inserted(s, i, r)) && Adds(s, Inserted(s, i, r), r.lo, r.hi)
  {
    var t := Inserted(s, i, r);
    assert forall k :: 0 <= k < |t| ==> t[k] == if k < i then s[k] else if k == i then r else s[k - 1];
    assert Canonical(t) by {
      forall k, l | 0 <= k < l < |t| ensures t[l].hi + 1 < t[k].lo {
      }
    }
    InsertAdds(s, i, r);
  }

  lemma InsertAdds(s: seq<Range>, i: nat, r: Range)
    requires i <= |s|
    ensures Adds(s, Inserted(s, i, r), r.lo, r.hi)
  {
    var t := Inserted(s, i, r);
    forall n ensures Covers(t, n) <==> Covers(s, n) || r.lo <= n <= r.hi {
      if Covers(s, n) {
        var k :| 0 <= k < |s| && InRange(s[k], n);
        assert InRange(t[if k < i then k else k + 1], n);
      }
      if Covers(t, n) && !InRange(r, n) {
        var k :| 0 <= k < |t| && InRange(t[k], n);
        assert InRange(s[if k < i then k else k - 1], n);
      }
      assert InRange(r, n) ==> InRange(t[i], n);
    }
  }

  function Merged(s: seq<Range>, i: nat): seq<Range>
    requires 0 < i < |s|
  {
    s[..i - 1] + [Range(s[i].lo, s[i - 1].hi)] + s[i + 1..]
  }

  /** Ranges i - 1 and i become one, filling the gap between them. */
  lemma Merge(s: seq<Range>, i: nat)
    requires Canonical(s) && 0 < i < |s|
    ensures Canonical(Merged(s, i)) && Adds(s, Merged(s, i), s[i].hi + 1, s[i - 1].lo - 1)
  {
    var t := Merged(s, i);
    assert forall k :: 0 <= k < |t| ==>
      t[k] == if k < i - 1 then s[k] else if k == i - 1 then Range(s[i].lo, s[i - 1].hi) else s[k + 1];
    assert Canonical(t) by {
      forall k, l | 0 <= k < l < |t| ensures t[l].hi + 1 < t[k].lo {
      }
    }
    MergeAdds(s, i);
  }

  lemma MergeAdds(s: seq<Range>, i: nat)
    requires 0 < i < |s| && s[i].lo <= s[i].hi < s[i - 1].lo <= s[i - 1].hi
    ensures Adds(s, Merged(s, i), s[i].hi + 1, s[i - 1].lo - 1)
  {
    var t := Merged(s, i);
    forall n ensures Covers(t, n) <==> Covers(s, n) || s[i].hi + 1 <= n <= s[i - 1].lo - 1 {
      if Covers(s, n) {
        var k :| 0 <= k < |s| && InRange(s[k], n);
        assert InRange(t[if k < i then k else k - 1], n);
      }
      if s[i].hi + 1 <= n <= s[i - 1].lo - 1 {
        assert InRange(t[i - 1], n);
      }
      if Covers(t, n) {
        var k :| 0 <= k < |t| && InRange(t[k], n);
        if k == i - 1 {
          assert InRange(s[i], n) || InRange(s[i - 1], n) || s[i].hi < n < s[i - 1].lo;
        } else {
          assert InRange(s[if k < i then k else k + 1], n);
        }
      }
    }
  }

  // ---------- one round of the update loop ----------

  /** What a round leaves: the list, and where the loop goes on with the rest of the range.
      `added` says that the round set the return value to 0. */
  datatype Round =
    | Stop(s: seq<Range>, added: bool)
    | Go(s: seq<Range>, i: nat, hi: nat, added: bool)

  /** The loop is at range i with [lo, hi] still to be added; the ranges before i lie above. */
  predicate Ready(s: seq<Range>, i: nat, lo: nat, hi: nat) {
    Canonical(s) && i < |s| && lo <= hi < PN_LIMIT && (i > 0 ==> hi < s[i - 1].lo)
  }

  function Extend(s: seq<Range>, i: nat, lo: nat, hi: nat): (t: (seq<Range>, nat))
    requires i < |s|
    ensures t.1 < |t.0|
  {
    if i > 0 && hi + 1 >= s[i - 1].lo then (Merged(s, i), i - 1)
    else (s[i := Range(s[i].lo, hi)], i)
  }

  function RoundAt(s: seq<Range>, i: nat, lo: nat, hi: nat): Round
    requires Ready(s, i, lo, hi)
  {
    if hi > s[i].hi then
      if lo <= s[i].hi + 1 then
        var (t, j) := Extend(s, i, lo, hi);
        if lo >= t[j].lo then Stop(t, true)
        else if j + 1 == |t| then Stop(t[j := Range(lo, t[j].hi)], true)
        else Go(t, j + 1, t[j].lo - 1, true)
      else if i > 0 && hi + 1 >= s[i - 1].lo then Stop(s[i - 1 := Range(lo, s[i - 1].hi)], true)
      else Stop(Inserted(s, i, Range(lo, hi)), true)
    else if hi >= s[i].lo then
      if lo < s[i].lo then
        if i + 1 == |s| then Stop(s[i := Range(lo, s[i].hi)], true)
        else Go(s, i + 1, s[i].lo - 1, true)
      else Stop(s, false)
    else if i + 1 == |s| then
      if hi + 1 == s[i].lo then Stop(s[i := Range(lo, s[i].hi)], true)
      else Stop(Inserted(s, i + 1, Range(lo, hi)), true)
    else Go(s, i + 1, hi, false)
  }

  ghost predicate AllCovered(s: seq<Range>, lo: int, hi: int) {
    forall n :: lo <= n <= hi ==> Covers(s, n)
  }

  /** Nothing is lost and nothing else is gained when the loop goes on. */
  ghost predicate SameGoal(s: seq<Range>, hi: int, s': seq<Range>, hi': int, lo: int) {
    forall n :: Covers(s, n) || lo <= n <= hi <==> Covers(s', n) || lo <= n <= hi'
  }

  lemma GapNotCovered(s: seq<Range>, i: nat, n: int)
    requires Canonical(s) && i < |s| && s[i].hi < n && (i > 0 ==> n < s[i - 1].lo)
    ensures !Covers(s, n)
  {
    forall k | 0 <= k < |s| ensures !InRange(s[k], n) {
    }
  }

  lemma BelowNotCovered(s: seq<Range>, i: nat, n: int)
    requires Canonical(s) && i < |s| && n < s[i].lo && (i + 1 < |s| ==> s[i + 1].hi < n)
    ensures !Covers(s, n)
  {
    forall k | 0 <= k < |s| ensures !InRange(s[k], n) {
    }
  }

  lemma ExtendCorrect(s: seq<Range>, i: nat, lo: nat, hi: nat)
    requires Ready(s, i, lo, hi) && s[i].hi < hi && lo <= s[i].hi + 1
    ensures var (t, j) := Extend(s, i, lo, hi);
      && Canonical(t) && Adds(s, t, s[i].hi + 1, hi)
      && t[j].lo == s[i].lo && hi <= t[j].hi && |t| - j == |s| - i
      && (j > 0 ==> t[j].hi + 1 < t[j - 1].lo)
  {
    if i > 0 && hi + 1 >= s[i - 1].lo {
      Merge(s, i);
    } else {
      Resize(s, i, Range(s[i].lo, hi));
      var t := s[i := Range(s[i].lo, hi)];
      forall n ensures Covers(t, n) <==> Covers(s, n) || s[i].hi + 1 <= n <= hi {
        assert InRange(s[i], n) ==> Covers(s, n);
      }
    }
  }

  /** One round keeps the list canonical and makes progress towards s plus [lo, hi]. */
  ghost predicate Progress(s: seq<Range>, i: nat, lo: nat, hi: nat, r: Round) {
    && (r.added ==> !AllCovered(s, lo, hi))
    && match r
       case Stop(s', added) => Canonical(s') && Adds(s, s', lo, hi) && (!added ==> s' == s && AllCovered(s, lo, hi))
       case Go(s', i', hi', added) =>
         && Ready(s', i', lo, hi') && |s'| - i' < |s| - i && SameGoal(s, hi, s', hi', lo)
         && (!added ==> s' == s && hi' == hi)
  }

  lemma RoundAbove(s: seq<Range>, i: nat, lo: nat, hi: nat)
    requires Ready(s, i, lo, hi) && hi > s[i].hi
    ensures Progress(s, i, lo, hi, RoundAt(s, i, lo, hi))
  {
    GapNotCovered(s, i, hi);
    if lo <= s[i].hi + 1 {
      RoundExtend(s, i, lo, hi);
    } else if i > 0 && hi + 1 >= s[i - 1].lo {
      var r := Range(lo, s[i - 1].hi);
      Resize(s, i - 1, r);
      forall n ensures Covers(s[i - 1 := r], n) <==> Covers(s, n) || lo <= n <= hi {
        assert InRange(s[i - 1], n) ==> Covers(s, n);
      }
    } else {
      Insert(s, i, Range(lo, hi));
    }
  }

  lemma RoundExtend(s: seq<Range>, i: nat, lo: nat, hi: nat)
    requires Ready(s, i, lo, hi) && hi > s[i].hi && lo <= s[i].hi + 1 && !Covers(s, hi)
    ensures Progress(s, i, lo, hi, RoundAt(s, i, lo, hi))
  {
    ExtendCorrect(s, i, lo, hi);
    var (t, j) := Extend(s, i, lo, hi);
    if lo >= t[j].lo {
      forall n ensures Covers(t, n) <==> Covers(s, n) || lo <= n <= hi {
        assert InRange(s[i], n) ==> Covers(s, n);
      }
    } else if j + 1 == |t| {
      var r := Range(lo, t[j].hi);
      Resize(t, j, r);
      forall n ensures Covers(t[j := r], n) <==> Covers(s, n) || lo <= n <= hi {
        assert InRange(t[j], n) ==> Covers(t, n);
      }
    } else {
      forall n ensures Covers(s, n) || lo <= n <= hi <==> Covers(t, n) || lo <= n <= t[j].lo - 1 {
        assert InRange(t[j], n) ==> Covers(t, n);
      }
    }
  }

  lemma RoundWithinOrBelow(s: seq<Range>, i: nat, lo: nat, hi: nat)
    requires Ready(s, i, lo, hi) && hi <= s[i].hi
    ensures Progress(s, i, lo, hi, RoundAt(s, i, lo, hi))
  {
    var r := Range(lo, s[i].hi);
    if i + 1 == |s| && lo < s[i].lo <= hi + 1 {
      BelowNotCovered(s, i, s[i].lo - 1);
      Resize(s, i, r);
      forall n ensures Covers(s[i := r], n) <==> Covers(s, n) || lo <= n <= hi {
        assert InRange(s[i], n) ==> Covers(s, n);
      }
    } else if hi >= s[i].lo {
      if lo < s[i].lo {
        BelowNotCovered(s, i, s[i].lo - 1);
        forall n ensures Covers(s, n) || lo <= n <= hi <==> Covers(s, n) || lo <= n <= s[i].lo - 1 {
          assert InRange(s[i], n) ==> Covers(s, n);
        }
      } else {
        forall n | lo <= n <= hi ensures Covers(s, n) {
          assert InRange(s[i], n);
        }
      }
    } else if i + 1 == |s| {
      BelowNotCovered(s, i, hi);
      Insert(s, i + 1, Range(lo, hi));
    }
  }

  lemma RoundCorrect(s: seq<Range>, i: nat, lo: nat, hi: nat)
    requires Ready(s, i, lo, hi)
    ensures Progress(s, i, lo, hi, RoundAt(s, i, lo, hi))
  {
    if hi > s[i].hi {
      RoundAbove(s, i, lo, hi);
    } else {
      RoundWithinOrBelow(s, i, lo, hi);
    }
  }

  /** All rounds from position i on: the final list, and whether anything was added. */
  function Rounds(s: seq<Range>, i: nat, lo: nat, hi: nat): (seq<Range>, bool)
    requires Ready(s, i, lo, hi)
    decreases |s| - i
  {
    RoundCorrect(s, i, lo, hi);
    match RoundAt(s, i, lo, hi)
    case Stop(t, added) => (t, added)
    case Go(t, j, rest, added) => var (u, more) := Rounds(t, j, lo, rest); (u, added || more)
  }

  /** The update loop adds exactly [lo, hi], keeps the list canonical, and reports an
      addition exactly when some number of the range was missing. */
  lemma {:induction false} RoundsCorrect(s: seq<Range>, i: nat, lo: nat, hi: nat)
    requires Ready(s, i, lo, hi)
    ensures var (t, added) := Rounds(s, i, lo, hi);
      Canonical(t) && Adds(s, t, lo, hi) && (added <==> !AllCovered(s, lo, hi)) && (!added ==> t == s)
    decreases |s| - i
  {
    RoundCorrect(s, i, lo, hi);
    match RoundAt(s, i, lo, hi)
    case Stop(t, added) =>
    case Go(t, j, rest, added) => RoundsCorrect(t, j, lo, rest);
  }

  // ---------- the linked list ----------

  class SackItem {
    var start: nat
    var end: nat
    var next: SackItem?

    constructor (start: nat, end: nat, next: SackItem?)
      ensures this.start == start && this.end == end && this.next == next
    {
      this.start, this.end, this.next := start, end, next;
    }
  }

  /** The chain of items q holds the ranges s. */
  ghost predicate Holds(q: seq<SackItem>, s: seq<Range>)
    reads q
  {
    && |q| == |s|
    && (forall i, j :: 0 <= i < j < |q| ==> q[i] != q[j])
    && (forall i :: 0 <= i < |q| ==> q[i].start == s[i].lo && q[i].end == s[i].hi)
    && (forall i, j :: 0 <= i < j < |q| && j == i + 1 ==> q[i].next == q[j])
    && (q != [] ==> q[|q| - 1].next == null)
  }

  ghost function Items(q: seq<SackItem>): set<SackItem> {
    set x | x in q
  }

  method SetBounds(item: SackItem, start: nat, end: nat, ghost q: seq<SackItem>, ghost s: seq<Range>, ghost i: nat)
    requires Holds(q, s) && i < |q| && q[i] == item
    modifies item
    ensures Holds(q, s[i := Range(start, end)])
  {
    item.start, item.end := start, end;
  }

  /** previous swallows the item after it. */
  method MergeItems(previous: SackItem, item: SackItem, ghost q: seq<SackItem>, ghost s: seq<Range>, ghost i: nat)
    requires Holds(q, s) && 0 < i < |q| && q[i] == item && q[i - 1] == previous
    modifies previous
    ensures Holds(q[..i] + q[i + 1..], Merged(s, i))
  {
    previous.start := item.start;
    previous.next := item.next;
    ghost var q', s' := q[..i] + q[i + 1..], Merged(s, i);
    assert forall k :: 0 <= k < |q'| ==> q'[k] == if k < i then q[k] else q[k + 1];
    assert s'[i - 1] == Range(s[i].lo, s[i - 1].hi);
    assert forall k :: 0 <= k < |s'| && k != i - 1 ==> s'[k] == if k < i then s[k] else s[k + 1];
    forall k | 0 <= k < |q'| ensures q'[k].start == s'[k].lo && q'[k].end == s'[k].hi {
      assert k != i - 1 ==> q'[k] != previous;
    }
    forall k, l | 0 <= k < l < |q'| && l == k + 1 ensures q'[k].next == q'[l] {
    }
  }

  method InsertAfter(item: SackItem, lo: nat, hi: nat, ghost q: seq<SackItem>, ghost s: seq<Range>, ghost i: nat)
      returns (hole: SackItem)
    requires Holds(q, s) && i < |q| && q[i] == item
    modifies item`next
    ensures fresh(hole) && Holds(q[..i + 1] + [hole] + q[i + 1..], Inserted(s, i + 1, Range(lo, hi)))
  {
    hole := new SackItem(lo, hi, item.next);
    DistinctInsert(q, i + 1, hole);
    item.next := hole;
    ghost var q', s' := q[..i + 1] + [hole] + q[i + 1..], Inserted(s, i + 1, Range(lo, hi));
    assert forall k :: 0 <= k < |q'| ==> q'[k] == if k <= i then q[k] else if k == i + 1 then hole else q[k - 1];
    forall k | 0 <= k < |q'| ensures q'[k].start == s'[k].lo && q'[k].end == s'[k].hi {
    }
    forall k, l | 0 <= k < l < |q'| && l == k + 1 ensures q'[k].next == q'[l] {
    }
  }

  lemma DistinctInsert<T>(q: seq<T>, i: nat, x: T)
    requires i <= |q| && x !in q && forall k, l :: 0 <= k < l < |q| ==> q[k] != q[l]
    ensures var q' := q[..i] + [x] + q[i..]; forall k, l :: 0 <= k < l < |q'| ==> q'[k] != q'[l]
  {
    var q' := q[..i] + [x] + q[i..];
    forall k, l | 0 <= k < l < |q'| ensures q'[k] != q'[l] {
      assert k != i ==> q'[k] == q[if k < i then k else k - 1];
      assert l != i ==> q'[l] == q[if l < i then l else l - 1];
    }
  }

  /** The new range takes item's place; a new item takes over item's old range. */
  method InsertBefore(item: SackItem, lo: nat, hi: nat, ghost q: seq<SackItem>, ghost s: seq<Range>, ghost i: nat)
      returns (hole: SackItem)
    requires Holds(q, s) && i < |q| && q[i] == item
    modifies item
    ensures fresh(hole) && Holds(q[..i + 1] + [hole] + q[i + 1..], Inserted(s, i, Range(lo, hi)))
  {
    hole := InsertAfter(item, item.start, item.end, q, s, i);
    assert Inserted(s, i, Range(lo, hi)) == Inserted(s, i + 1, s[i])[i := Range(lo, hi)];
    SetBounds(item, lo, hi, q[..i + 1] + [hole] + q[i + 1..], Inserted(s, i + 1, s[i]), i);
  }

  /** q' has the first item of q and, besides items of q, only new ones. */
  twostate predicate Grown(q: seq<SackItem>, new q': seq<SackItem>) {
    && |q'| > 0 && |q| > 0 && q'[0] == q[0]
    && forall x :: x in q' ==> x in q || fresh(x)
  }

  lemma Peek(q: seq<SackItem>, s: seq<Range>, i: nat)
    requires Holds(q, s) && i < |q|
    ensures q[i].start == s[i].lo && q[i].end == s[i].hi && q[i] in q
    ensures q[i].next == null <==> i + 1 == |q|
    ensures i + 1 < |q| ==> q[i].next == q[i + 1]
  {
    if i + 1 < |q| {
      assert q[i].next == q[i + 1];
    }
  }

  /** Merge with the previous item if the gap closes, or else lengthen the item. */
  method ExtendItem(sack: SackItem, previous: SackItem?, lo: nat, hi: nat,
                    ghost q: seq<SackItem>, ghost s: seq<Range>, ghost i: nat)
      returns (at: SackItem, ghost q': seq<SackItem>)
    requires Holds(q, s) && i < |q| && q[i] == sack
    requires previous == if i > 0 then q[i - 1] else null
    modifies Items(q)
    ensures Grown(q, q') && |q'| == |Extend(s, i, lo, hi).0| && at == q'[Extend(s, i, lo, hi).1]
    ensures Holds(q', Extend(s, i, lo, hi).0)
  {
    if previous != null && hi + 1 >= previous.start {
      MergeItems(previous, sack, q, s, i);
      at, q' := previous, q[..i] + q[i + 1..];
    } else {
      SetBounds(sack, sack.start, hi, q, s, i);
      at, q' := sack, q;
    }
  }

  method ExtendRound(sack: SackItem, previous: SackItem?, lo: nat, hi: nat,
                     ghost q: seq<SackItem>, ghost s: seq<Range>, ghost i: nat)
      returns (done: bool, at: SackItem, rest: nat, ghost q': seq<SackItem>)
    requires Holds(q, s) && Ready(s, i, lo, hi) && q[i] == sack
    requires previous == if i > 0 then q[i - 1] else null
    requires hi > s[i].hi && lo <= s[i].hi + 1
    modifies Items(q)
    ensures Grown(q, q') && Holds(q', RoundAt(s, i, lo, hi).s)
    ensures done == RoundAt(s, i, lo, hi).Stop?
    ensures !done ==> var r := RoundAt(s, i, lo, hi);
      0 < r.i <= |q'| && at == q'[r.i - 1] && rest == r.hi
  {
    ghost var t := Extend(s, i, lo, hi).0;
    ghost var j := Extend(s, i, lo, hi).1;
    at, q' := ExtendItem(sack, previous, lo, hi, q, s, i);
    Peek(q', t, j);
    done, rest := true, 0;
    if lo < at.start {
      if at.next == null {
        SetBounds(at, lo, at.end, q', t, j);
      } else {
        done, rest := false, at.start - 1;
      }
    }
  }

  /** The range lies wholly between the previous item and this one. */
  method GapRound(sack: SackItem, previous: SackItem?, lo: nat, hi: nat,
                  ghost q: seq<SackItem>, ghost s: seq<Range>, ghost i: nat)
      returns (ghost q': seq<SackItem>)
    requires Holds(q, s) && Ready(s, i, lo, hi) && q[i] == sack
    requires previous == if i > 0 then q[i - 1] else null
    requires hi > s[i].hi && lo > s[i].hi + 1
    modifies Items(q)
    ensures Grown(q, q') && Holds(q', RoundAt(s, i, lo, hi).s)
  {
    q' := q;
    if previous != null && hi + 1 >= previous.start {
      SetBounds(previous, lo, previous.end, q, s, i - 1);
    } else {
      var hole := InsertBefore(sack, lo, hi, q, s, i);
      q' := q[..i + 1] + [hole] + q[i + 1..];
    }
  }

  /** The body of the update loop. */
  method DoRound(sack: SackItem, previous: SackItem?, lo: nat, hi: nat,
                 ghost q: seq<SackItem>, ghost s: seq<Range>, ghost i: nat)
      returns (done: bool, added: bool, at: SackItem, rest: nat, ghost q': seq<SackItem>)
    requires Holds(q, s) && Ready(s, i, lo, hi) && q[i] == sack
    requires previous == if i > 0 then q[i - 1] else null
    modifies Items(q)
    ensures Grown(q, q') && Holds(q', RoundAt(s, i, lo, hi).s)
    ensures done == RoundAt(s, i, lo, hi).Stop? && added == RoundAt(s, i, lo, hi).added
    ensures !done ==> var r := RoundAt(s, i, lo, hi);
      0 < r.i <= |q'| && at == q'[r.i - 1] && rest == r.hi
  {
    Peek(q, s, i);
    done, added, at, rest, q' := true, true, sack, hi, q;
    if hi > sack.end {
      if lo <= sack.end + 1 {
        done, at, rest, q' := ExtendRound(sack, previous, lo, hi, q, s, i);
      } else {
        q' := GapRound(sack, previous, lo, hi, q, s, i);
      }
    } else if hi >= sack.start {
      if lo < sack.start {
        if sack.next == null {
          SetBounds(sack, lo, sack.end, q, s, i);
        } else {
          done, rest := false, sack.start - 1;
        }
      } else {
        added := false;
      }
    } else if sack.next == null {
      if hi + 1 == sack.start {
        SetBounds(sack, lo, sack.end, q, s, i);
      } else {
        var hole := InsertAfter(sack, lo, hi, q, s, i);
        q' := q[..i + 1] + [hole] + q[i + 1..];
      }
    } else {
      done, added := false, false;
    }
  }

  /** One round, told in terms of the rounds still to come. */
  method Advance(sack: SackItem, previous: SackItem?, lo: nat, hi: nat,
                 ghost q: seq<SackItem>, ghost s: seq<Range>, ghost i: nat)
      returns (done: bool, added: bool, at: SackItem, rest: nat,
               ghost q': seq<SackItem>, ghost t: seq<Range>, ghost j: nat)
    requires Holds(q, s) && Ready(s, i, lo, hi) && q[i] == sack
    requires previous == if i > 0 then q[i - 1] else null
    modifies Items(q)
    ensures Grown(q, q') && Holds(q', t)
    ensures done ==> Rounds(s, i, lo, hi) == (t, added)
    ensures !done ==>
      && Ready(t, j, lo, rest) && |t| - j < |s| - i && 0 < j && at == q'[j - 1]
      && Rounds(s, i, lo, hi) == (Rounds(t, j, lo, rest).0, added || Rounds(t, j, lo, rest).1)
  {
    RoundCorrect(s, i, lo, hi);
    ghost var r := RoundAt(s, i, lo, hi);
    done, added, at, rest, q' := DoRound(sack, previous, lo, hi, q, s, i);
    t, j := r.s, if r.Go? then r.i else 0;
  }

  /** picoquic_update_sack_list on a list that has seen something. */
  method UpdateLoop(head: SackItem, lo: nat, hi: nat, ghost q0: seq<SackItem>, ghost s0: seq<Range>)
      returns (ret: int, ghost q: seq<SackItem>, ghost s: seq<Range>)
    requires Holds(q0, s0) && Ready(s0, 0, lo, hi) && q0[0] == head
    modifies Items(q0)
    ensures Grown(q0, q) && Holds(q, s)
    ensures s == Rounds(s0, 0, lo, hi).0 && ret == if Rounds(s0, 0, lo, hi).1 then 0 else 1
  {
    ret, q, s := 1, q0, s0;
    var sack, previous, rest := head, null, hi;
    ghost var i: nat := 0;
    ghost var goal := Rounds(s0, 0, lo, hi);
    var done := false;
    while !done
      invariant |q| > 0 && q[0] == q0[0] && forall x :: x in q ==> x in q0 || fresh(x)
      invariant Holds(q, s) && (ret == 0 || ret == 1)
      invariant done ==> goal == (s, ret == 0)
      invariant !done ==> Ready(s, i, lo, rest)
      invariant !done ==> goal == (Rounds(s, i, lo, rest).0, ret == 0 || Rounds(s, i, lo, rest).1)
      invariant !done ==> sack == q[i] && previous == if i > 0 then q[i - 1] else null
      decreases !done, |s| - i
    {
      var added, at;
      ghost var t, j;
      done, added, at, rest, q, t, j := Advance(sack, previous, lo, rest, q, s, i);
      if added {
        ret := 0;
      }
      if !done {
        Peek(q, t, j - 1);
        previous, sack := at, at.next;
      }
      s, i := t, j;
    }
  }

  // ---------- the public operations ----------

  /** pn is greater than every number recorded. */
  ghost predicate IsLargest(s: seq<Range>, pn: int) {
    forall n :: Covers(s, n) ==> n < pn
  }

  class Sacks {
    /** The first item is embedded in the packet context, so it is never replaced. */
    const first: SackItem
    var timeStampLargestReceived: nat
    ghost var q: seq<SackItem>
    ghost var s: seq<Range>
    /** Every range recorded so far, in order of arrival. */
    ghost var history: seq<Range>

    ghost predicate Valid()
      reads this, Items(q)
    {
      && SameNumbers(history, s) && Canonical(s) && |q| > 0 && q[0] == first
      && (if s == [] then first.start == NONE && first.next == null && |q| == 1 else Holds(q, s))
    }

    constructor ()
      ensures Valid() && s == [] && history == [] && fresh(Items(q))
    {
      var item := new SackItem(NONE, 0, null);
      first := item;
      timeStampLargestReceived := 0;
      q := [item];
      s, history := [], [];
    }

    /** The first range ever recorded goes into the embedded item. */
    method Start(lo: nat, hi: nat)
      requires Valid() && first.start == NONE && lo <= hi < PN_LIMIT
      modifies this`s, this`history, first
      ensures Valid() && old(s) == [] && Adds(old(s), s, lo, hi) && !AllCovered(old(s), lo, hi)
      ensures history == old(history) + [Range(lo, hi)]
    {
      EmptyIsNone(q, s);
      first.start, first.end := lo, hi;
      FirstRange(lo, hi);
      HistoryStep(history, s, Range(lo, hi), [Range(lo, hi)]);
      s, history := [Range(lo, hi)], history + [Range(lo, hi)];
    }

    /** picoquic_update_sack_list; 1 says the range was there already. */
    method Update(lo: nat, hi: nat) returns (ret: int)
      requires Valid() && lo <= hi < PN_LIMIT
      modifies this`q, this`s, this`history, Items(q)
      ensures Valid() && Adds(old(s), s, lo, hi) && fresh(Items(q) - old(Items(q)))
      ensures ret == if AllCovered(old(s), lo, hi) then 1 else 0
      ensures ret == 1 ==> s == old(s)
      ensures history == old(history) + [Range(lo, hi)]
    {
      if first.start == NONE {
        Start(lo, hi);
        ret := 0;
      } else {
        RoundsCorrect(s, 0, lo, hi);
        ret, q, s := UpdateLoop(first, lo, hi, q, s);
        HistoryStep(history, old(s), Range(lo, hi), s);
        history := history + [Range(lo, hi)];
      }
    }

    /** picoquic_record_pn_received: the time stamp follows the largest number received. */
    method Record(pn: nat, now: nat) returns (ret: int)
      requires Valid() && pn < PN_LIMIT
      modifies this, Items(q)
      ensures Valid() && Adds(old(s), s, pn, pn) && fresh(Items(q) - old(Items(q)))
      ensures ret == if AllCovered(old(s), pn, pn) then 1 else 0
      ensures timeStampLargestReceived == if IsLargest(old(s), pn) then now else old(timeStampLargestReceived)
      ensures history == old(history) + [Range(pn, pn)]
    {
      if first.start == NONE {
        Start(pn, pn);
        timeStampLargestReceived := now;
        ret := 0;
      } else {
        Stamp(pn, now);
        ret := Update(pn, pn);
      }
    }

    method Stamp(pn: nat, now: nat)
      requires Valid() && first.start != NONE
      modifies `timeStampLargestReceived
      ensures Valid() && timeStampLargestReceived == if IsLargest(s, pn) then now else old(timeStampLargestReceived)
    {
      HeadIsMaximum(s);
      Peek(q, s, 0);
      if pn > first.end {
        timeStampLargestReceived := now;
      }
    }

    /** picoquic_check_sack_list: 0 if the range fills a hole, -1 otherwise. */
    method Check(lo: nat, hi: nat) returns (ret: int)
      requires Valid() && lo <= hi < PN_LIMIT
      ensures ret == if AllCovered(s, lo, hi) then -1 else 0
    {
      if first.start == NONE {
        EmptyIsNone(q, s);
        assert !Covers(s, lo);
        return 0;
      }
      var sack := first;
      ghost var i := 0;
      while true
        invariant s != [] && Ready(s, i, lo, hi) && sack == q[i]
        decreases |s| - i
      {
        Peek(q, s, i);
        RoundCorrect(s, i, lo, hi);
        if hi > sack.end {
          return 0;
        } else if hi >= sack.start {
          return if lo < sack.start then 0 else -1;
        } else if sack.next == null {
          return 0;
        }
        sack, i := sack.next, i + 1;
      }
    }

    /** picoquic_is_pn_already_received */
    method IsReceived(pn: nat) returns (r: bool)
      requires Valid() && pn < PN_LIMIT
      ensures r == Covers(s, pn)
    {
      if first.start == NONE {
        EmptyIsNone(q, s);
        return false;
      }
      var sack: SackItem? := first;
      ghost var i := 0;
      while sack != null
        invariant s != [] && i <= |s| && sack == (if i < |s| then q[i] else null)
        invariant i > 0 ==> pn < s[i - 1].lo
        decreases |s| - i
      {
        Peek(q, s, i);
        if pn > sack.end {
          GapNotCovered(s, i, pn);
          return false;
        } else if pn >= sack.start {
          assert InRange(s[i], pn);
          return true;
        }
        sack, i := sack.next, i + 1;
      }
      BelowNotCovered(s, |s| - 1, pn);
      return false;
    }
  }

  lemma EmptyIsNone(q: seq<SackItem>, s: seq<Range>)
    requires |q| > 0 && Canonical(s) && q[0].start == NONE
    requires s == [] || Holds(q, s)
    ensures s == []
  {
    if s != [] {
      Peek(q, s, 0);
    }
  }

  lemma FirstRange(lo: nat, hi: nat)
    requires lo <= hi
    ensures Adds([], [Range(lo, hi)], lo, hi) && !AllCovered([], lo, hi)
  {
    var s := [Range(lo, hi)];
    forall n ensures Covers(s, n) <==> lo <= n <= hi {
      assert InRange(s[0], n) <==> lo <= n <= hi;
    }
    assert !Covers([], lo);
  }

  // ---------- every run ----------

  ghost predicate SameNumbers(s: seq<Range>, t: seq<Range>) {
    forall n :: Covers(s, n) <==> Covers(t, n)
  }

  lemma HistoryStep(ranges: seq<Range>, t: seq<Range>, r: Range, s: seq<Range>)
    requires SameNumbers(ranges, t) && Adds(t, s, r.lo, r.hi)
    ensures SameNumbers(ranges + [r], s)
  {
    forall n ensures Covers(ranges + [r], n) <==> Covers(s, n) {
      CoversLast(ranges, r, n);
    }
  }

  lemma CoversLast(ranges: seq<Range>, r: Range, n: int)
    ensures Covers(ranges + [r], n) <==> Covers(ranges, n) || InRange(r, n)
  {
    var all := ranges + [r];
    if Covers(ranges, n) {
      var i :| 0 <= i < |ranges| && InRange(ranges[i], n);
      assert InRange(all[i], n);
    }
    assert InRange(r, n) ==> InRange(all[|ranges|], n);
  }

  /** Any two arrival orders of the same packet numbers leave the same list. */
  lemma ArrivalOrderIrrelevant(a: Sacks, b: Sacks)
    requires a.Valid() && b.Valid() && SameNumbers(a.history, b.history)
    ensures a.s == b.s
  {
    CanonicalUnique(a.s, b.s);
  }
}
