/**
 The pool of equal blocks for plugin memory (memory.c).

 A free block keeps the index of the next free one in its header.  Headers are written only
 as blocks come into use, so the end of the chain is implicit: blocks never touched, in order.
 */
module BlockPool {
  import opened Collections

  const BLOCK_SIZE: nat := 2100
  const HEADER_SIZE: nat := 8
  const MAGIC_NUMBER: int := 0xa110ca7ab1e

  /** PLUGIN_MEMORY, in bytes. */
  const PLUGIN_MEMORY: nat := 16 * 1024 * 1024

  const NULL := 0

  /** The indices from u on, as the untouched end of a chain. */
  ghost predicate Untouched(chain: seq<nat>, a: nat, u: nat) {
    forall i :: a <= i < |chain| ==> chain[i] == u + (i - a)
  }

  /** A chain of indices below n: first a of the initialized ones, then all from u on. */
  ghost predicate Shaped(chain: seq<nat>, a: nat, u: nat, n: nat) {
    && Unrepeated(chain) && (forall i :: 0 <= i < |chain| ==> chain[i] < n)
    && a <= |chain| && u <= n && |chain| - a == n - u && Untouched(chain, a, u)
    && (forall i :: 0 <= i < a ==> chain[i] < u)
  }

  lemma ShapedTail(chain: seq<nat>, a: nat, u: nat, n: nat)
    requires Shaped(chain, a, u, n) && a > 0
    ensures Shaped(chain[1..], a - 1, u, n) && chain[0] !in chain[1..]
    ensures forall x :: x in chain <==> x == chain[0] || x in chain[1..]
  {
    var rest := chain[1..];
    assert forall i :: 0 <= i < |rest| ==> rest[i] == chain[i + 1];
    assert chain == [chain[0]] + rest;
  }

  lemma ShapedMore(chain: seq<nat>, a: nat, u: nat, n: nat, b: nat)
    requires Shaped(chain, a, u, n) && b < u && b !in chain
    ensures Shaped([b] + chain, a + 1, u, n)
  {
    var more := [b] + chain;
    assert forall i :: 0 < i < |more| ==> more[i] == chain[i - 1] && more[i] in chain;
  }

  /** The indices below n that are not in the chain. */
  ghost function Outside(chain: seq<nat>, n: nat): set<nat> {
    set b: nat | b < n && b !in chain
  }

  class MemoryPool {
    const memStart: int
    const numOfBlocks: nat
    /** The first eight bytes of each block. */
    const header: array<int>
    var numInitialized: nat
    var numFreeBlocks: nat
    var next: int
    /** The free blocks in the order they will be handed out; the first a of them have headers. */
    ghost var chain: seq<nat>
    ghost var a: nat

    function AddrFromIndex(i: nat): int {
      memStart + i * BLOCK_SIZE
    }

    function IndexFromAddr(p: int): int {
      (p - memStart) / BLOCK_SIZE
    }

    /** The helpers are inverse to each other, and blocks do not overlap. */
    lemma AddressesApart(i: nat, j: nat)
      ensures IndexFromAddr(AddrFromIndex(i)) == i
      ensures i < j ==> AddrFromIndex(i) + BLOCK_SIZE <= AddrFromIndex(j)
    {
    }

    ghost predicate Links()
      reads `chain, `a, header
      requires a <= |chain| && forall i :: 0 <= i < |chain| ==> chain[i] < header.Length
    {
      forall i, j :: 0 <= i < j < |chain| && j == i + 1 && i < a ==> header[chain[i]] == chain[j]
    }

    ghost predicate Valid()
      reads this, header
    {
      && memStart > 0 && header.Length == numOfBlocks && |chain| == numFreeBlocks
      && Shaped(chain, a, numInitialized, numOfBlocks) && Links()
      && next == (if chain == [] then NULL else AddrFromIndex(chain[0]))
      && (forall b :: 0 <= b < numOfBlocks && b !in chain ==> b < numInitialized && header[b] == MAGIC_NUMBER)
    }

    /** The blocks in use. */
    ghost function Live(): set<nat>
      reads `chain
    {
      Outside(chain, numOfBlocks)
    }

    constructor (memory: int)
      requires memory > 0
      ensures Valid() && Live() == {} && numOfBlocks == PLUGIN_MEMORY / BLOCK_SIZE && memStart == memory
    {
      memStart, numOfBlocks := memory, PLUGIN_MEMORY / BLOCK_SIZE;
      header := new int[PLUGIN_MEMORY / BLOCK_SIZE];
      numInitialized, numFreeBlocks, next := 0, PLUGIN_MEMORY / BLOCK_SIZE, memory;
      chain := seq(PLUGIN_MEMORY / BLOCK_SIZE, i => i);
      a := 0;
      new;
      forall b | 0 <= b < numOfBlocks ensures b in chain {
        assert chain[b] == b;
      }
    }

    /** Write the header of the first untouched block, if there is one. */
    method Initialize()
      requires Valid()
      modifies `numInitialized, `a, header
      ensures Valid() && (chain != [] ==> a > 0)
    {
      if numInitialized < numOfBlocks {
        assert chain[a] == numInitialized;
        assert forall i :: 0 <= i < |chain| && i != a ==> chain[i] != numInitialized;
        header[numInitialized] := numInitialized + 1;
        numInitialized := numInitialized + 1;
        a := a + 1;
      }
    }

    /** A request that fits a block fails exactly if all blocks are live; else it gets a block that
        was not, and that one only. */
    method MallocBlock(size: nat) returns (ptr: int)
      requires Valid()
      modifies this, header
      ensures Valid()
      ensures size > BLOCK_SIZE - HEADER_SIZE ==> ptr == NULL && Live() == old(Live()) && chain == old(chain)
      ensures size <= BLOCK_SIZE - HEADER_SIZE ==>
        (ptr == NULL <==> forall b: nat :: b < numOfBlocks ==> b in old(Live()))
      ensures ptr == NULL ==> Live() == old(Live())
      ensures ptr != NULL ==>
        old(chain) != [] && chain == old(chain)[1..] && ptr == AddrFromIndex(old(chain)[0]) + HEADER_SIZE
      ensures ptr != NULL ==> old(chain)[0] !in old(Live()) && Live() == old(Live()) + {old(chain)[0]}
    {
      if size > BLOCK_SIZE - HEADER_SIZE {
        return NULL;
      }
      assert chain != [] ==> chain[0] in chain && chain[0] !in Live();
      Initialize();
      if numFreeBlocks == 0 {
        return NULL;
      }
      ptr := Pop();
      ptr := ptr + HEADER_SIZE;
    }

    /** Take the first block off the chain and mark it. */
    method Pop() returns (ptr: int)
      requires Valid() && chain != [] && a > 0
      modifies `numFreeBlocks, `next, `chain, `a, header
      ensures Valid() && chain == old(chain)[1..] && ptr == AddrFromIndex(old(chain)[0])
      ensures Live() == old(Live()) + {old(chain)[0]}
    {
      ghost var b := chain[0];
      ghost var rest := chain[1..];
      ShapedTail(chain, a, numInitialized, numOfBlocks);
      AddressesApart(b, b);
      ptr := next;
      var i := IndexFromAddr(ptr);
      assert i == b;
      numFreeBlocks := numFreeBlocks - 1;
      if numFreeBlocks > 0 {
        assert header[i] == chain[1];
        next := AddrFromIndex(header[i]);
      } else {
        next := NULL;
      }
      header[i] := MAGIC_NUMBER;
      chain := rest;
      a := a - 1;
    }

    /** Give a live block back; it will be the next one handed out. */
    method FreeBlock(ptr: int, ghost b: nat)
      requires Valid() && b in Live() && ptr == AddrFromIndex(b) + HEADER_SIZE
      modifies this, header
      ensures Valid() && chain == [b] + old(chain) && Live() == old(Live()) - {b}
    {
      var p := ptr - HEADER_SIZE;
      ShapedMore(chain, a, numInitialized, numOfBlocks, b);
      AddressesApart(b, b);
      var i := IndexFromAddr(p);
      assert header[i] == MAGIC_NUMBER;
      if next != NULL {
        AddressesApart(chain[0], chain[0]);
        header[i] := IndexFromAddr(next);
        next := p;
      } else {
        header[i] := numOfBlocks;
        next := p;
      }
      numFreeBlocks := numFreeBlocks + 1;
      ghost var more := [b] + chain;
      assert forall k :: 0 < k < |more| ==> more[k] == chain[k - 1];
      chain := more;
      a := a + 1;
    }

    /** The free blocks and the live ones are all there are. */
    lemma Conserved()
      requires Valid()
      ensures numFreeBlocks + |Live()| == numOfBlocks
    {
      CountAll(chain, numOfBlocks);
    }
  }

  lemma {:induction false} CountAll(chain: seq<nat>, n: nat)
    requires Unrepeated(chain) && forall i :: 0 <= i < |chain| ==> chain[i] < n
    ensures |chain| + |Outside(chain, n)| == n
  {
    if chain == [] {
      CountBelow(n);
    } else {
      var k := |chain| - 1;
      CountAll(chain[..k], n);
      assert chain == chain[..k] + [chain[k]];
      assert Outside(chain[..k], n) == Outside(chain, n) + {chain[k]};
    }
  }

  lemma {:induction false} CountBelow(n: nat)
    ensures |Outside([], n)| == n
  {
    if n > 0 {
      CountBelow(n - 1);
      assert Outside([], n) == Outside([], n - 1) + {n - 1};
    }
  }
}
