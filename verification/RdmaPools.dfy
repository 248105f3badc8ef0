/**
 The address pool and the shared blocks of the RDMA transport (src/ibverbs_van.h).

 The address pool lends out small numbers for pointers; a number stands for at most one
 pointer at a time.  A block is returned to the memory pool by the last of its users.
 */
module RdmaPools {
  import opened Collections
  import opened Mempool

  /** kMaxEntries. */
  const MAX_ENTRIES: nat := 512

  /** The null pointer. */
  const NULL := 0

  lemma {:induction false} ElementsSize(s: seq<nat>)
    requires Unrepeated(s)
    ensures |Elements(s)| == |s|
  {
    if s != [] {
      var k := |s| - 1;
      ElementsSize(s[..k]);
      assert s == s[..k] + [s[k]];
      assert Elements(s) == Elements(s[..k]) + {s[k]};
    }
  }

  lemma Complement(a: set<nat>, b: set<nat>, n: nat)
    requires (forall x :: x in a ==> x < n) && forall x: nat :: x in b <==> x < n && x !in a
    ensures |a| + |b| == n
  {
    assert a + b == Below(n);
    assert a !! b;
  }

  class AddressPool {
    var indices: seq<nat>
    const table: array<int>

    /** Every index is either waiting in the queue or stands for a pointer. */
    ghost predicate Valid()
      reads this, table
    {
      && table.Length == MAX_ENTRIES && Unrepeated(indices)
      && (forall k :: 0 <= k < |indices| ==> indices[k] < MAX_ENTRIES)
      && (forall i :: 0 <= i < MAX_ENTRIES ==> (i in indices <==> table[i] == NULL))
    }

    /** The pointers that are stored, by index. */
    ghost function Stored(): map<nat, int>
      reads this, table
      requires table.Length == MAX_ENTRIES
    {
      map i: nat | i < MAX_ENTRIES && table[i] != NULL :: table[i]
    }

    constructor ()
      ensures Valid() && Stored() == map[] && |indices| == MAX_ENTRIES && fresh(table)
    {
      indices := [];
      table := new int[MAX_ENTRIES];
      new;
      for i := 0 to MAX_ENTRIES
        invariant |indices| == i && forall k :: 0 <= k < i ==> indices[k] == k && table[k] == NULL
      {
        indices := indices + [i];
        table[i] := NULL;
      }
      forall i | 0 <= i < MAX_ENTRIES ensures i in indices {
        assert indices[i] == i;
      }
    }

    method StoreAddress(ptr: int) returns (idx: nat)
      requires Valid() && ptr != NULL && indices != []
      modifies this, table
      ensures Valid() && idx !in old(Stored()) && Stored() == old(Stored())[idx := ptr]
      ensures [idx] + indices == old(indices)
    {
      idx := indices[0];
      assert idx in indices;
      indices := indices[1..];
      assert table[idx] == NULL;
      table[idx] := ptr;
      assert forall i :: i in old(indices) <==> i in indices || i == idx;
    }

    method GetAddressAndRelease(index: nat) returns (ptr: int)
      requires Valid() && index in Stored()
      modifies this, table
      ensures Valid() && ptr == old(Stored())[index] != NULL && Stored() == old(Stored()) - {index}
      ensures indices == old(indices) + [index]
    {
      ptr := table[index];
      indices := indices + [index];
      table[index] := NULL;
    }

    /** Nothing is lost: the free and the used indices add up. */
    lemma Conserved()
      requires Valid()
      ensures |indices| + |Stored()| == MAX_ENTRIES
    {
      ElementsSize(indices);
      var free, taken := Elements(indices), Stored().Keys;
      forall x: nat ensures x in taken <==> x < MAX_ENTRIES && x !in free {
      }
      forall x | x in free ensures x < MAX_ENTRIES {
      }
      Complement(free, taken, MAX_ENTRIES);
    }
  }

  /** A buffer that several segments of a message share. */
  class Block {
    const pool: SimpleMempool
    const addr: int
    var counter: int

    constructor (pool: SimpleMempool, addr: int, count: int)
      ensures this.pool == pool && this.addr == addr && counter == count
    {
      this.pool, this.addr, counter := pool, addr, count;
    }

    /** The last user, and no other, gives the buffer back. */
    method Release()
      requires counter > 0 && pool.Valid() && addr != 0 && addr in pool.usedList
      modifies this, pool
      ensures counter == old(counter) - 1 && pool.Valid()
      ensures pool.usedList == if counter == 0 then old(pool.usedList) - {addr} else old(pool.usedList)
    {
      var v := counter;
      counter := counter - 1;
      if v == 1 {
        pool.Free(addr);
      }
    }
  }
}
