/**
 The pool of registered memory of the RDMA transport (src/ibverbs_van.h).

 What the pool owns is described by counting, for every byte of memory, the blocks that
 cover it: free and used blocks together cover each byte exactly as often as the registered
 regions do, and the regions cover it at most once.
 */
module Mempool {
  import opened Powers

  /** The alignment of all blocks, in bytes. */
  const ALIGNMENT: nat := 8

  predicate Aligned(v: int) {
    v % ALIGNMENT == 0
  }

  lemma AlignedSum(u: int, v: int)
    requires Aligned(u) && Aligned(v)
    ensures Aligned(u + v) && Aligned(u - v)
  {
    assert u == 8 * (u / 8) && v == 8 * (v / 8);
  }

  function AlignFloor(v: nat): nat {
    v - v % ALIGNMENT
  }

  /** The smallest multiple of the alignment that is not below v. */
  function AlignCeil(v: nat): (r: nat)
    ensures v <= r < v + ALIGNMENT && Aligned(r)
  {
    AlignFloor(v + ALIGNMENT - 1)
  }

  // ---------- blocks ----------

  datatype Extent = Extent(addr: int, size: int)

  predicate Within(e: Extent, a: int) {
    e.addr <= a < e.addr + e.size
  }

  /** How many of the blocks cover byte a. */
  function Cover(s: seq<Extent>, a: int): nat {
    if s == [] then 0 else (if Within(s[0], a) then 1 else 0) + Cover(s[1..], a)
  }

  function Total(s: seq<Extent>): int {
    if s == [] then 0 else s[0].size + Total(s[1..])
  }

  lemma {:induction false} Concat(s: seq<Extent>, t: seq<Extent>, a: int)
    ensures Cover(s + t, a) == Cover(s, a) + Cover(t, a)
    ensures Total(s + t) == Total(s) + Total(t)
  {
    if s == [] {
      assert s + t == t;
    } else {
      Concat(s[1..], t, a);
      assert (s + t)[1..] == s[1..] + t;
    }
  }

  /** Neither null nor empty. */
  predicate Sound(e: Extent) {
    e.addr > 0 && e.size > 0
  }

  predicate AllSound(s: seq<Extent>) {
    forall i :: 0 <= i < |s| ==> Sound(s[i])
  }

  /** Aligned at its start. */
  predicate AlignedExtent(e: Extent) {
    Aligned(e.addr)
  }

  predicate AllAligned(s: seq<Extent>) {
    forall i :: 0 <= i < |s| ==> AlignedExtent(s[i])
  }

  lemma {:induction false} Covered(s: seq<Extent>, i: nat, a: int)
    requires i < |s| && Within(s[i], a)
    ensures Cover(s, a) >= 1
  {
    if i > 0 {
      Covered(s[1..], i - 1, a);
    }
  }

  lemma {:induction false} NotCovered(s: seq<Extent>, i: nat, a: int)
    requires i < |s| && Cover(s, a) == 0
    ensures !Within(s[i], a)
  {
    if i > 0 {
      NotCovered(s[1..], i - 1, a);
    }
  }

  lemma {:induction false} CoveredTwice(s: seq<Extent>, i: nat, j: nat, a: int)
    requires i < j < |s| && Within(s[i], a) && Within(s[j], a)
    ensures Cover(s, a) >= 2
  {
    if i > 0 {
      CoveredTwice(s[1..], i - 1, j - 1, a);
    } else {
      Covered(s[1..], j - 1, a);
    }
  }

  lemma {:induction false} Coverer(s: seq<Extent>, a: int) returns (i: nat)
    requires Cover(s, a) >= 1
    ensures i < |s| && Within(s[i], a)
  {
    if Within(s[0], a) {
      i := 0;
    } else {
      i := Coverer(s[1..], a);
      i := i + 1;
    }
  }

  predicate Apart(e: Extent, f: Extent) {
    e.addr + e.size <= f.addr || f.addr + f.size <= e.addr
  }

  // ---------- tiling ----------

  /** The free and the used blocks tile the regions, which do not overlap. */
  ghost predicate Tiles(free: seq<Extent>, used: seq<Extent>, regions: seq<Extent>) {
    forall a :: Cover(free, a) + Cover(used, a) == Cover(regions, a) <= 1
  }

  predicate InSome(s: seq<Extent>, a: int) {
    exists i :: 0 <= i < |s| && Within(s[i], a)
  }

  predicate AllApart(s: seq<Extent>) {
    forall i, j :: 0 <= i < j < |s| ==> Apart(s[i], s[j])
  }

  /** Where no byte is covered twice, no two blocks overlap. */
  lemma CoveredOnce(s: seq<Extent>)
    requires AllSound(s) && forall a :: Cover(s, a) <= 1
    ensures AllApart(s)
  {
    forall i, j | 0 <= i < j < |s| ensures Apart(s[i], s[j]) {
      if !Apart(s[i], s[j]) {
        var a := if s[i].addr <= s[j].addr then s[j].addr else s[i].addr;
        CoveredTwice(s, i, j, a);
        assert false;
      }
    }
  }

  lemma CoveredIffIn(s: seq<Extent>, a: int)
    ensures Cover(s, a) >= 1 <==> InSome(s, a)
  {
    if Cover(s, a) >= 1 {
      var i := Coverer(s, a);
    }
    if i :| 0 <= i < |s| && Within(s[i], a) {
      Covered(s, i, a);
    }
  }

  /** What tiling means: no two blocks overlap, no two regions do, and a byte is in some block
      exactly if it is in some region. */
  lemma TilesMeans(free: seq<Extent>, used: seq<Extent>, regions: seq<Extent>)
    requires Tiles(free, used, regions) && AllSound(free) && AllSound(used) && AllSound(regions)
    ensures AllApart(free + used) && AllApart(regions)
    ensures forall a :: InSome(free + used, a) <==> InSome(regions, a)
  {
    forall a ensures Cover(free + used, a) == Cover(regions, a) <= 1 {
      Concat(free, used, a);
      assert Cover(free, a) + Cover(used, a) == Cover(regions, a) <= 1;
    }
    CoveredOnce(free + used);
    CoveredOnce(regions);
    forall a ensures InSome(free + used, a) <==> InSome(regions, a) {
      CoveredIffIn(free + used, a);
      CoveredIffIn(regions, a);
    }
  }

  // ---------- the free list: a multimap keyed by size ----------

  predicate BySize(s: seq<Extent>) {
    forall i, j :: 0 <= i < j < |s| ==> s[i].size <= s[j].size
  }

  /** lower_bound: the first entry of at least the given size, or the end. */
  function FirstFit(s: seq<Extent>, size: int): (k: nat)
    ensures k <= |s| && (k < |s| ==> s[k].size >= size)
  {
    if s == [] || s[0].size >= size then 0 else 1 + FirstFit(s[1..], size)
  }

  /** The first fit is a best fit. */
  lemma {:induction false} FirstFitIsBest(s: seq<Extent>, size: int, i: nat)
    requires BySize(s) && i < |s| && s[i].size >= size
    ensures FirstFit(s, size) <= i && s[FirstFit(s, size)].size <= s[i].size
  {
    if s[0].size < size {
      FirstFitIsBest(s[1..], size, i - 1);
    }
  }

  /** A multimap puts a new entry behind those with the same key. */
  function Emplace(s: seq<Extent>, e: Extent): (r: seq<Extent>)
    ensures |r| == |s| + 1
  {
    if s == [] || s[|s| - 1].size <= e.size then s + [e]
    else Emplace(s[..|s| - 1], e) + [s[|s| - 1]]
  }

  lemma {:induction false} EmplaceKeeps(s: seq<Extent>, e: Extent)
    requires BySize(s)
    ensures BySize(Emplace(s, e)) && multiset(Emplace(s, e)) == multiset(s) + multiset{e}
  {
    if s == [] || s[|s| - 1].size <= e.size {
    } else {
      var front, last := s[..|s| - 1], s[|s| - 1];
      assert s == front + [last];
      EmplaceKeeps(front, e);
      var r := Emplace(front, e);
      forall i | 0 <= i < |r| ensures r[i].size <= last.size {
        assert r[i] in multiset(r);
        assert r[i] in front || r[i] == e;
      }
    }
  }

  lemma {:induction false} EmplaceCover(s: seq<Extent>, e: Extent, a: int)
    ensures Cover(Emplace(s, e), a) == Cover(s, a) + (if Within(e, a) then 1 else 0)
    ensures Total(Emplace(s, e)) == Total(s) + e.size
  {
    if s == [] || s[|s| - 1].size <= e.size {
      Concat(s, [e], a);
    } else {
      var front, last := s[..|s| - 1], s[|s| - 1];
      assert s == front + [last];
      EmplaceCover(front, e, a);
      Concat(front, [last], a);
      Concat(Emplace(front, e), [last], a);
    }
  }

  function Erase(s: seq<Extent>, k: nat): (r: seq<Extent>)
    requires k < |s|
    ensures |r| == |s| - 1
  {
    s[..k] + s[k + 1..]
  }

  lemma EraseKeeps(s: seq<Extent>, k: nat)
    requires k < |s|
    ensures BySize(s) ==> BySize(Erase(s, k))
    ensures AllSound(s) ==> AllSound(Erase(s, k))
    ensures AllAligned(s) ==> AllAligned(Erase(s, k))
  {
  }

  lemma EraseCover(s: seq<Extent>, k: nat, a: int)
    requires k < |s|
    ensures Cover(s, a) == Cover(Erase(s, k), a) + (if Within(s[k], a) then 1 else 0)
    ensures Total(s) == Total(Erase(s, k)) + s[k].size
  {
    assert s == s[..k] + ([s[k]] + s[k + 1..]);
    Concat(s[..k], [s[k]] + s[k + 1..], a);
    Concat([s[k]], s[k + 1..], a);
    Concat(s[..k], s[k + 1..], a);
  }

  lemma EmplaceSound(s: seq<Extent>, e: Extent)
    requires AllSound(s) && Sound(e)
    ensures AllSound(Emplace(s, e))
    ensures AllAligned(s) && AlignedExtent(e) ==> AllAligned(Emplace(s, e))
  {
    if s == [] || s[|s| - 1].size <= e.size {
    } else {
      EmplaceSound(s[..|s| - 1], e);
    }
  }

  // ---------- taking a block out of the free list, and giving one back ----------

  /** What is left free when n bytes are taken from entry k. */
  function Carve(s: seq<Extent>, k: nat, n: int): seq<Extent>
    requires k < |s|
  {
    var rest := Erase(s, k);
    if s[k].size == n then rest else Emplace(rest, Extent(s[k].addr + n, s[k].size - n))
  }

  lemma CarveSound(s: seq<Extent>, k: nat, n: int)
    requires k < |s| && AllSound(s) && BySize(s) && 0 < n <= s[k].size
    ensures AllSound(Carve(s, k, n)) && BySize(Carve(s, k, n)) && Sound(Extent(s[k].addr, n))
  {
    assert Sound(s[k]);
    EraseKeeps(s, k);
    if s[k].size != n {
      var rest := Extent(s[k].addr + n, s[k].size - n);
      EmplaceSound(Erase(s, k), rest);
      EmplaceKeeps(Erase(s, k), rest);
    }
  }

  lemma CarveAligned(s: seq<Extent>, k: nat, n: int)
    requires k < |s| && AllSound(s) && AllAligned(s) && 0 < n <= s[k].size && Aligned(n)
    ensures AllAligned(Carve(s, k, n)) && AlignedExtent(Extent(s[k].addr, n))
  {
    assert Sound(s[k]) && AlignedExtent(s[k]);
    EraseKeeps(s, k);
    if s[k].size != n {
      var rest := Extent(s[k].addr + n, s[k].size - n);
      AlignedSum(s[k].addr, n);
      EmplaceSound(Erase(s, k), rest);
    }
  }

  lemma CarveCover(s: seq<Extent>, k: nat, n: int, a: int)
    requires k < |s| && 0 < n <= s[k].size
    ensures Cover(s, a) == Cover(Carve(s, k, n), a) + (if Within(Extent(s[k].addr, n), a) then 1 else 0)
    ensures Total(s) == Total(Carve(s, k, n)) + n
  {
    EraseCover(s, k, a);
    if s[k].size != n {
      EmplaceCover(Erase(s, k), Extent(s[k].addr + n, s[k].size - n), a);
    }
  }

  lemma CarveTiles(s: seq<Extent>, k: nat, n: int, used: seq<Extent>, regions: seq<Extent>)
    requires k < |s| && 0 < n <= s[k].size && Tiles(s, used, regions)
    ensures Tiles(Carve(s, k, n), used + [Extent(s[k].addr, n)], regions)
    ensures Total(Carve(s, k, n)) + Total(used + [Extent(s[k].addr, n)]) == Total(s) + Total(used)
  {
    var e := Extent(s[k].addr, n);
    forall a ensures Cover(Carve(s, k, n), a) + Cover(used + [e], a) == Cover(regions, a) <= 1 {
      CarveCover(s, k, n, a);
      Concat(used, [e], a);
      assert Cover(s, a) + Cover(used, a) == Cover(regions, a) <= 1;
    }
    CarveCover(s, k, n, 0);
    Concat(used, [e], 0);
  }

  lemma GrowTiles(s: seq<Extent>, used: seq<Extent>, regions: seq<Extent>, e: Extent)
    requires Tiles(s, used, regions) && forall a :: Within(e, a) ==> Cover(regions, a) == 0
    ensures Tiles(Emplace(s, e), used, regions + [e])
    ensures Total(Emplace(s, e)) == Total(s) + e.size && Total(regions + [e]) == Total(regions) + e.size
  {
    forall a ensures Cover(Emplace(s, e), a) + Cover(used, a) == Cover(regions + [e], a) <= 1 {
      EmplaceCover(s, e, a);
      Concat(regions, [e], a);
      assert Cover(s, a) + Cover(used, a) == Cover(regions, a) <= 1;
    }
    EmplaceCover(s, e, 0);
    Concat(regions, [e], 0);
  }

  lemma FreeTiles(s: seq<Extent>, used: seq<Extent>, i: nat, regions: seq<Extent>)
    requires i < |used| && Tiles(s, used, regions)
    ensures Tiles(Emplace(s, used[i]), Erase(used, i), regions)
    ensures Total(Emplace(s, used[i])) + Total(Erase(used, i)) == Total(s) + Total(used)
  {
    forall a ensures Cover(Emplace(s, used[i]), a) + Cover(Erase(used, i), a) == Cover(regions, a) <= 1 {
      EmplaceCover(s, used[i], a);
      EraseCover(used, i, a);
      assert Cover(s, a) + Cover(used, a) == Cover(regions, a) <= 1;
    }
    EmplaceCover(s, used[i], 0);
    EraseCover(used, i, 0);
  }

  // ---------- the used list and the regions ----------

  /** The used list maps the address of each used block to its size, and holds nothing else. */
  ghost predicate Books(m: map<int, int>, used: seq<Extent>) {
    && (forall i :: 0 <= i < |used| ==> used[i].addr in m && m[used[i].addr] == used[i].size)
    && (forall a :: a in m ==> Extent(a, m[a]) in used)
  }

  /** A block taken from the free list is not in the used list. */
  lemma NotBooked(free: seq<Extent>, k: nat, used: seq<Extent>, regions: seq<Extent>, m: map<int, int>)
    requires k < |free| && AllSound(free) && AllSound(used) && Tiles(free, used, regions) && Books(m, used)
    ensures free[k].addr !in m
  {
    var a := free[k].addr;
    Covered(free, k, a);
    assert Cover(free, a) + Cover(used, a) == Cover(regions, a) <= 1;
    forall i | 0 <= i < |used| ensures used[i].addr != a {
      NotCovered(used, i, a);
      assert Sound(used[i]);
    }
  }

  lemma BooksFree(m: map<int, int>, free: seq<Extent>, used: seq<Extent>, i: nat, regions: seq<Extent>)
    requires i < |used| && Books(m, used) && AllSound(used) && Tiles(free, used, regions)
    ensures Books(m - {used[i].addr}, Erase(used, i))
  {
    forall a ensures Cover(used, a) <= 1 {
      assert Cover(free, a) + Cover(used, a) == Cover(regions, a) <= 1;
    }
    CoveredOnce(used);
    var rest, m' := Erase(used, i), m - {used[i].addr};
    forall j | 0 <= j < |rest| ensures rest[j].addr in m' && m'[rest[j].addr] == rest[j].size {
      assert Apart(used[i], used[if j < i then j else j + 1]);
    }
    forall a | a in m' ensures Extent(a, m'[a]) in rest {
      var j :| 0 <= j < |used| && used[j] == Extent(a, m[a]);
      assert rest[if j < i then j else j - 1] == used[j];
    }
  }

  // ---------- growth ----------

  /** The size of a new region: the total so far, doubled until the request fits. */
  function GrowSize(total: nat, need: nat): (r: nat)
    requires total > 0
    ensures r >= need && r >= total
    decreases need - total
  {
    if need <= total then total else GrowSize(2 * total, need)
  }

  /** align_ceil on size_t. */
  function AlignCeil64(v: nat): nat {
    var u := (v + ALIGNMENT - 1) % TWO_TO_64;
    u - u % ALIGNMENT
  }

  /** Rounding up is right exactly up to the last multiple of 8. */
  lemma AlignWraps(v: nat)
    requires v < TWO_TO_64
    ensures AlignCeil64(v) == AlignCeil(v) <==> v <= TWO_TO_64 - ALIGNMENT
  {
  }

  function Doubled(size: nat, times: nat): nat {
    if times == 0 then size else 2 * Doubled(size, times - 1)
  }

  /** The size after so many rounds of the doubling on size_t. */
  function Doubled64(size: nat, times: nat): nat {
    if times == 0 then size else 2 * Doubled64(size, times - 1) % TWO_TO_64
  }

  /** The loop on size_t ends after n rounds, with r. */
  ghost predicate EndsAfter(total: nat, need: nat, n: nat, r: nat) {
    && Doubled64(total, n) == r && r >= need
    && forall i :: 0 <= i < n ==> Doubled64(total, i) < need
  }

  lemma NoWrap(v: nat)
    requires 2 * v < TWO_TO_64
    ensures 2 * v % TWO_TO_64 == 2 * v
  {
  }

  lemma {:induction false} DoublingGrows(total: nat, need: nat, n: nat, v: nat)
    requires v == Doubled64(total, n) && v > 0 && GrowSize(v, need) < TWO_TO_64
    requires forall i :: 0 <= i < n ==> Doubled64(total, i) < need
    ensures exists k :: EndsAfter(total, need, k, GrowSize(v, need))
    decreases need - v
  {
    if need <= v {
      assert EndsAfter(total, need, n, v);
    } else {
      NoWrap(v);
      assert Doubled64(total, n + 1) == 2 * v;
      DoublingGrows(total, need, n + 1, 2 * v);
    }
  }

  /** The doubling on size_t ends with the size it should exactly if that is below 2^64. */
  lemma DoublingFits(total: nat, need: nat)
    requires 0 < total < TWO_TO_64
    ensures (exists n :: EndsAfter(total, need, n, GrowSize(total, need))) <==> GrowSize(total, need) < TWO_TO_64
  {
    if GrowSize(total, need) < TWO_TO_64 {
      DoublingGrows(total, need, 0, total);
    } else {
      forall n ensures !EndsAfter(total, need, n, GrowSize(total, need)) {
        assert Doubled64(total, n) < TWO_TO_64;
      }
    }
  }

  /** Which it is for requests up to half of the address space. */
  lemma {:induction false} HalfFits(total: nat, need: nat)
    requires 0 < total < TWO_TO_64 && need <= TWO_TO_64 / 2
    ensures GrowSize(total, need) < TWO_TO_64
    decreases need - total
  {
    if need > total {
      HalfFits(2 * total, need);
    }
  }

  lemma {:induction false} DoubledUp(k: nat, n: nat)
    requires k <= n
    ensures Doubled(1, k) <= Doubled(1, n)
  {
    if k < n {
      DoubledUp(k, n - 1);
    }
  }

  lemma EightTimes(size: nat, n: nat)
    ensures Doubled(size, n + 8) == 256 * Doubled(size, n)
  {
    assert Doubled(size, n + 2) == 4 * Doubled(size, n);
    assert Doubled(size, n + 4) == 4 * Doubled(size, n + 2);
    assert Doubled(size, n + 6) == 4 * Doubled(size, n + 4);
    assert Doubled(size, n + 8) == 4 * Doubled(size, n + 6);
  }

  lemma TwoTo64()
    ensures Doubled(1, 63) == TWO_TO_64 / 2 && Doubled(1, 64) == TWO_TO_64
  {
    EightTimes(1, 0);
    EightTimes(1, 8);
    EightTimes(1, 16);
    EightTimes(1, 24);
    EightTimes(1, 32);
    EightTimes(1, 40);
    EightTimes(1, 48);
    EightTimes(1, 56);
    assert Doubled(1, 64) == 2 * Doubled(1, 63);
  }

  lemma {:induction false} PowersShift(k: nat, n: nat)
    requires k < 64
    ensures Doubled64(Doubled(1, k), n) == if k + n < 64 then Doubled(1, k + n) else 0
  {
    TwoTo64();
    if n > 0 {
      PowersShift(k, n - 1);
      if k + n < 64 {
        DoubledUp(k + n, 63);
        NoWrap(Doubled(1, k + n - 1));
      }
    }
  }

  /** And for a larger request, a total that is a power of two is doubled to 0 and the loop never ends. */
  lemma DoublingNeverEnds(k: nat, need: nat, n: nat)
    requires k < 64 && need > TWO_TO_64 / 2
    ensures Doubled64(Doubled(1, k), n) < need
  {
    PowersShift(k, n);
    TwoTo64();
    if k + n < 64 {
      DoubledUp(k + n, 63);
    }
  }

  /** Nor does it for a pool that was given no memory at first. */
  lemma {:induction false} EmptyNeverEnds(need: nat, n: nat)
    requires need > 0
    ensures Doubled64(0, n) < need
  {
    if n > 0 {
      EmptyNeverEnds(1, n - 1);
    }
  }

  lemma BooksMore(m: map<int, int>, used: seq<Extent>, addr: int, n: int)
    requires Books(m, used) && addr !in m
    ensures Books(m[addr := n], used + [Extent(addr, n)])
  {
    var used' := used + [Extent(addr, n)];
    assert used'[|used|] == Extent(addr, n);
    forall i | 0 <= i < |used| ensures used[i].addr != addr {
    }
  }

  /** When nothing fitted before, the new region is the first fit. */
  lemma {:induction false} OnlyNewFits(s: seq<Extent>, e: Extent, n: int)
    requires FirstFit(s, n) == |s| && e.size >= n
    ensures FirstFit(s + [e], n) == |s| && (s != [] ==> s[|s| - 1].size < n)
  {
    if s != [] {
      OnlyNewFits(s[1..], e, n);
      assert (s + [e])[1..] == s[1..] + [e];
    }
  }

  lemma NewFits(s: seq<Extent>, e: Extent, n: int)
    requires FirstFit(s, n) == |s| && e.size >= n
    ensures FirstFit(Emplace(s, e), n) == |s| && Emplace(s, e)[|s|] == e
  {
    OnlyNewFits(s, e, n);
  }

  // ---------- all of it ----------

  /** Everything that holds between calls. */
  ghost predicate Kept(free: seq<Extent>, booked: map<int, int>, total: nat,
                       used: seq<Extent>, regions: seq<Extent>, firstSize: nat)
  {
    && BySize(free) && AllSound(free) && AllSound(used) && AllSound(regions)
    && Tiles(free, used, regions) && Books(booked, used)
    && total == Total(regions) == Total(free) + Total(used)
    && total > 0 && regions != [] && Doubled(firstSize, |regions| - 1) <= total
  }

  lemma KeptAtFirst(e: Extent)
    requires Sound(e)
    ensures Kept([e], map[], e.size, [], [e], e.size)
  {
    Concat([e], [], 0);
    assert Total([e]) == e.size + Total([]) && Doubled(e.size, 0) == e.size;
    forall a ensures Cover([e], a) + Cover([], a) == Cover([e], a) <= 1 {
      assert Cover([e], a) == (if Within(e, a) then 1 else 0) + Cover([], a);
    }
  }

  ghost predicate AlignedAll(free: seq<Extent>, used: seq<Extent>) {
    AllAligned(free) && AllAligned(used)
  }

  lemma DoubledMore(size: nat, times: nat)
    ensures Doubled(size, times + 1) == 2 * Doubled(size, times)
  {
  }

  lemma GrowKeeps(free: seq<Extent>, booked: map<int, int>, total: nat,
                  used: seq<Extent>, regions: seq<Extent>, firstSize: nat, e: Extent)
    requires Kept(free, booked, total, used, regions, firstSize)
    requires Sound(e) && e.size >= total && forall a :: Within(e, a) ==> Cover(regions, a) == 0
    ensures Kept(Emplace(free, e), booked, total + e.size, used, regions + [e], firstSize)
  {
    GrowTiles(free, used, regions, e);
    EmplaceKeeps(free, e);
    EmplaceSound(free, e);
    DoubledMore(firstSize, |regions| - 1);
    assert |regions + [e]| - 1 == (|regions| - 1) + 1;
  }

  /** The new block is in the used list. */
  lemma TakeBooks(free: seq<Extent>, booked: map<int, int>, used: seq<Extent>, regions: seq<Extent>, k: nat, n: nat)
    requires k < |free| && 0 < n && AllSound(free) && AllSound(used) && Tiles(free, used, regions)
    requires Books(booked, used)
    ensures free[k].addr !in booked && Sound(Extent(free[k].addr, n)) && AllSound(used + [Extent(free[k].addr, n)])
    ensures Books(booked[free[k].addr := n], used + [Extent(free[k].addr, n)])
  {
    assert Sound(free[k]);
    NotBooked(free, k, used, regions, booked);
    BooksMore(booked, used, free[k].addr, n);
  }

  lemma TakeKeeps(free: seq<Extent>, booked: map<int, int>, total: nat,
                  used: seq<Extent>, regions: seq<Extent>, firstSize: nat, k: nat, n: nat)
    requires Kept(free, booked, total, used, regions, firstSize)
    requires k < |free| && 0 < n <= free[k].size
    ensures free[k].addr !in booked && Sound(Extent(free[k].addr, n))
    ensures Kept(Carve(free, k, n), booked[free[k].addr := n], total,
                 used + [Extent(free[k].addr, n)], regions, firstSize)
  {
    CarveTiles(free, k, n, used, regions);
    CarveSound(free, k, n);
    TakeBooks(free, booked, used, regions, k, n);
  }

  lemma TakeAligned(free: seq<Extent>, used: seq<Extent>, k: nat, n: nat)
    requires AlignedAll(free, used) && AllSound(free) && k < |free| && 0 < n <= free[k].size && Aligned(n)
    ensures AlignedAll(Carve(free, k, n), used + [Extent(free[k].addr, n)]) && Aligned(free[k].addr)
  {
    CarveAligned(free, k, n);
  }

  lemma FreeKeeps(free: seq<Extent>, booked: map<int, int>, total: nat,
                  used: seq<Extent>, regions: seq<Extent>, firstSize: nat, i: nat)
    requires Kept(free, booked, total, used, regions, firstSize) && i < |used|
    ensures Kept(Emplace(free, used[i]), booked - {used[i].addr}, total, Erase(used, i), regions, firstSize)
  {
    EraseKeeps(used, i);
    FreeTiles(free, used, i, regions);
    BooksFree(booked, free, used, i, regions);
    EmplaceKeeps(free, used[i]);
    assert Sound(used[i]);
    EmplaceSound(free, used[i]);
  }

  /** Live blocks do not overlap each other, and lie in the regions. */
  lemma LiveBlocksApart(free: seq<Extent>, booked: map<int, int>, total: nat,
                        used: seq<Extent>, regions: seq<Extent>, firstSize: nat, x: int, y: int)
    requires Kept(free, booked, total, used, regions, firstSize)
    requires x in booked && y in booked && x != y
    ensures Apart(Extent(x, booked[x]), Extent(y, booked[y]))
    ensures forall a :: x <= a < x + booked[x] ==> InSome(regions, a)
  {
    TilesMeans(free, used, regions);
    var i :| 0 <= i < |used| && used[i] == Extent(x, booked[x]);
    var j :| 0 <= j < |used| && used[j] == Extent(y, booked[y]);
    assert (free + used)[|free| + i] == used[i] && (free + used)[|free| + j] == used[j];
    forall a | x <= a < x + booked[x] ensures InSome(regions, a) {
      assert Within((free + used)[|free| + i], a);
      assert InSome(free + used, a);
    }
  }

  // ---------- the pool ----------

  class SimpleMempool {
    var freeList: seq<Extent>
    var usedList: map<int, int>
    var totalAllocatedSize: nat
    /** The registered regions, in the order they came. */
    var regions: seq<Extent>
    /** The used blocks, in the order they were taken. */
    ghost var used: seq<Extent>
    ghost const firstSize: nat

    ghost predicate Valid()
      reads this
    {
      && Kept(freeList, usedList, totalAllocatedSize, used, regions, firstSize)
      && AlignedAll(freeList, used)
    }

    /** A new region may be placed at p: aligned, and clear of all the others. */
    ghost predicate Placeable(p: int, size: int)
      reads `regions
    {
      p > 0 && Aligned(p) && forall a :: Within(Extent(p, size), a) ==> Cover(regions, a) == 0
    }

    /** p is where the first region is placed. */
    constructor (size: nat, p: int)
      requires size > 0 && p > 0 && Aligned(p)
      ensures Valid() && usedList == map[] && regions == [Extent(p, size)] && firstSize == size
      ensures freeList == [Extent(p, size)]
    {
      var e := Extent(p, size);
      freeList, usedList, totalAllocatedSize := [e], map[], size;
      used, regions, firstSize := [], [e], size;
      KeptAtFirst(e);
    }

    /** Register a new region at p, large enough for need bytes. */
    method Grow(need: nat, p: int)
      requires Valid() && Placeable(p, GrowSize(totalAllocatedSize, need)) && FirstFit(freeList, need) == |freeList|
      modifies `freeList, `totalAllocatedSize, `regions
      ensures Valid() && used == old(used) && usedList == old(usedList)
      ensures var e := Extent(p, GrowSize(old(totalAllocatedSize), need));
        && regions == old(regions) + [e] && freeList == Emplace(old(freeList), e)
        && totalAllocatedSize == old(totalAllocatedSize) + e.size >= 2 * old(totalAllocatedSize)
      ensures var k := FirstFit(freeList, need); k < |freeList| && freeList[k].addr == p
    {
      var newSize := totalAllocatedSize;
      while need > newSize
        invariant newSize > 0 && GrowSize(newSize, need) == GrowSize(totalAllocatedSize, need)
      {
        newSize := newSize * 2;
      }
      var e := Extent(p, newSize);
      NewFits(freeList, e, need);
      GrowKeeps(freeList, usedList, totalAllocatedSize, used, regions, firstSize, e);
      EmplaceSound(freeList, e);
      freeList := Emplace(freeList, e);
      totalAllocatedSize := totalAllocatedSize + newSize;
      regions := regions + [e];
    }

    /** Take n bytes from the best fit. */
    method Take(n: nat) returns (addr: int)
      requires Valid() && n > 0 && Aligned(n) && FirstFit(freeList, n) < |freeList|
      modifies `freeList, `usedList, `used
      ensures Valid() && addr > 0 && Aligned(addr)
      ensures var k := FirstFit(old(freeList), n);
        && addr == old(freeList)[k].addr && freeList == Carve(old(freeList), k, n)
      ensures addr !in old(usedList) && usedList == old(usedList)[addr := n]
    {
      var k := FirstFit(freeList, n);
      var e := freeList[k];
      addr := e.addr;
      var left := e.size - n;
      TakeKeeps(freeList, usedList, totalAllocatedSize, used, regions, firstSize, k, n);
      TakeAligned(freeList, used, k, n);
      assert addr !in usedList;
      var rest := Erase(freeList, k);
      var split := if left != 0 then Emplace(rest, Extent(addr + n, left)) else rest;
      assert split == Carve(freeList, k, n);
      freeList := split;
      usedList := usedList[addr := n];
      used := used + [Extent(addr, n)];
    }

    /** p is where a new region would be placed, if one is needed. */
    method Alloc(size: nat, p: int) returns (addr: int)
      requires Valid()
      requires size > 0 && FirstFit(freeList, AlignCeil(size)) == |freeList| ==>
        Placeable(p, GrowSize(totalAllocatedSize, AlignCeil(size)))
      modifies this
      ensures Valid()
      ensures size == 0 ==> addr == 0 && unchanged(this)
      ensures size > 0 ==>
        && addr > 0 && Aligned(addr) && addr !in old(usedList)
        && usedList == old(usedList)[addr := AlignCeil(size)]
      ensures size > 0 && FirstFit(old(freeList), AlignCeil(size)) < |old(freeList)| ==>
        && regions == old(regions) && totalAllocatedSize == old(totalAllocatedSize)
        && addr == old(freeList)[FirstFit(old(freeList), AlignCeil(size))].addr
        && freeList == Carve(old(freeList), FirstFit(old(freeList), AlignCeil(size)), AlignCeil(size))
      ensures size > 0 && FirstFit(old(freeList), AlignCeil(size)) == |old(freeList)| ==>
        && addr == p && totalAllocatedSize >= 2 * old(totalAllocatedSize)
        && regions == old(regions) + [Extent(p, totalAllocatedSize - old(totalAllocatedSize))]
    {
      if size == 0 {
        return 0;
      }
      var properSize := AlignCeil(size);
      var k := FirstFit(freeList, properSize);
      if k == |freeList| {
        addr := GrowAndTake(properSize, p);
      } else {
        addr := Take(properSize);
      }
    }

    /** With no fit left, the block comes from the start of a new region. */
    method GrowAndTake(n: nat, p: int) returns (addr: int)
      requires Valid() && n > 0 && Aligned(n) && FirstFit(freeList, n) == |freeList|
      requires Placeable(p, GrowSize(totalAllocatedSize, n))
      modifies this
      ensures Valid() && addr == p && totalAllocatedSize >= 2 * old(totalAllocatedSize)
      ensures addr !in old(usedList) && usedList == old(usedList)[addr := n] && addr > 0 && Aligned(addr)
      ensures regions == old(regions) + [Extent(p, totalAllocatedSize - old(totalAllocatedSize))]
    {
      Grow(n, p);
      addr := Take(n);
    }

    /** Give a block back.  A null address is ignored. */
    method Free(addr: int)
      requires Valid() && (addr == 0 || addr in usedList)
      modifies `freeList, `usedList, `used
      ensures Valid()
      ensures addr == 0 ==> unchanged(this)
      ensures addr != 0 ==> usedList == old(usedList) - {addr}
      ensures addr != 0 ==> freeList == Emplace(old(freeList), Extent(addr, old(usedList)[addr]))
    {
      if addr == 0 {
        return;
      }
      var size := usedList[addr];
      ghost var i :| 0 <= i < |used| && used[i] == Extent(addr, size);
      FreeKeeps(freeList, usedList, totalAllocatedSize, used, regions, firstSize, i);
      assert Sound(used[i]) && AlignedExtent(used[i]);
      EraseKeeps(used, i);
      EmplaceSound(freeList, used[i]);
      usedList := usedList - {addr};
      freeList := Emplace(freeList, Extent(addr, size));
      used := Erase(used, i);
    }
  }

  // ---------- the region of an address ----------

  function End(e: Extent): int {
    e.addr + e.size
  }

  /** Regions are filed under their ends; the lookup takes the least end not below the address. */
  function Addr2Mr(regions: seq<Extent>, addr: int): (k: int)
    ensures -1 <= k < |regions|
    ensures k >= 0 ==> End(regions[k]) >= addr
    ensures forall i :: 0 <= i < |regions| && End(regions[i]) >= addr ==> k >= 0 && End(regions[k]) <= End(regions[i])
  {
    if regions == [] then -1
    else
      var k := Addr2Mr(regions[1..], addr);
      if End(regions[0]) >= addr && (k < 0 || End(regions[0]) <= End(regions[1..][k])) then 0
      else if k < 0 then -1
      else k + 1
  }

  /** The lookup is right for an address in a region exactly if no region ends where it is:
      comparing with "not below" lets a region that ends there answer for its neighbour. */
  lemma Addr2MrRight(regions: seq<Extent>, addr: int, i: nat)
    requires AllSound(regions) && AllApart(regions) && i < |regions| && Within(regions[i], addr)
    ensures Addr2Mr(regions, addr) == i <==> forall j :: 0 <= j < |regions| ==> End(regions[j]) != addr
  {
    var k := Addr2Mr(regions, addr);
    assert End(regions[i]) >= addr;
    if k != i {
      assert Sound(regions[k]);
      assert Apart(regions[k], regions[i]) || Apart(regions[i], regions[k]);
      assert End(regions[k]) == addr;
    }
    if j :| 0 <= j < |regions| && End(regions[j]) == addr {
      assert End(regions[k]) <= addr;
    }
  }

  /** And that does happen: two regions side by side. */
  lemma Addr2MrWrong()
    ensures var regions := [Extent(8, 8), Extent(16, 8)];
      AllSound(regions) && AllApart(regions) && Within(regions[1], 16) && Addr2Mr(regions, 16) == 0
  {
    var regions := [Extent(8, 8), Extent(16, 8)];
    var k := Addr2Mr(regions, 16);
    assert End(regions[0]) == 16 && End(regions[1]) == 24;
  }
}
